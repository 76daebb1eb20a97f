/** The snapshot of the rooms on disk, and their restoration at the next start. */
module Snapshots {
  import opened Options
  import opened Ordered
  import opened Rooms
  import opened ChatOps

  // ---------- what is saved ----------

  function WithAssets(media: map<string, Asset>, assets: seq<Asset>): map<string, Asset> {
    if assets == [] then media else
    var last := assets[|assets| - 1];
    WithAssets(media, assets[..|assets| - 1])[last.id := last]
  }

  function WithMessages(media: map<string, Asset>, messages: seq<Message>): map<string, Asset> {
    if messages == [] then media else
    WithAssets(WithMessages(media, messages[..|messages| - 1]), messages[|messages| - 1].media)
  }

  /** All assets of these rooms by their id; of two with the same id the later one stays. */
  function MediaOf(rooms: seq<Room>): map<string, Asset> {
    if rooms == [] then map[] else
    WithMessages(MediaOf(rooms[..|rooms| - 1]), rooms[|rooms| - 1].messages)
  }

  /** The ordinary rooms, in the order of their ids. */
  function OrdinaryRooms(rooms: Rooms, keys: seq<nat>): (kept: seq<Room>)
    requires forall k :: k in keys ==> k in rooms
    ensures forall room :: room in kept <==> exists k :: k in keys && !rooms[k].incognito && rooms[k] == room
  {
    if keys == [] then [] else
    var front, last := keys[..|keys| - 1], keys[|keys| - 1];
    assert forall k :: k in keys <==> k in front || k == last;
    OrdinaryRooms(rooms, front) + if rooms[last].incognito then [] else [rooms[last]]
  }

  function Kept(rooms: Rooms): seq<Room> {
    OrdinaryRooms(rooms, InOrder(rooms.Keys))
  }

  /** The file keeps everything of a room except the assets inside its messages. */
  function Stripped(room: Room): (r: Room)
    ensures |r.messages| == |room.messages|
    ensures forall k :: 0 <= k < |r.messages| ==> r.messages[k] == room.messages[k].(media := [])
  {
    room.(messages := seq(|room.messages|, k requires 0 <= k < |room.messages| => room.messages[k].(media := [])))
  }

  function AllStripped(rooms: seq<Room>): (r: seq<Room>)
    ensures |r| == |rooms|
    ensures forall k :: 0 <= k < |r| ==> r[k] == Stripped(rooms[k])
  {
    seq(|rooms|, k requires 0 <= k < |rooms| => Stripped(rooms[k]))
  }

  datatype Snapshot = Snapshot(rooms: seq<Room>, media: map<string, Asset>)

  function Saved(rooms: Rooms): Snapshot {
    Snapshot(AllStripped(Kept(rooms)), MediaOf(Kept(rooms)))
  }

  method CollectMedia(before: map<string, Asset>, messages: seq<Message>) returns (media: map<string, Asset>)
    ensures media == WithMessages(before, messages)
  {
    media := before;
    for j := 0 to |messages|
      invariant media == WithMessages(before, messages[..j])
    {
      assert messages[..j + 1][..j] == messages[..j];
      var assets := messages[j].media;
      ghost var sofar := media;
      for k := 0 to |assets|
        invariant media == WithAssets(sofar, assets[..k])
      {
        assert assets[..k + 1][..k] == assets[..k];
        media := media[assets[k].id := assets[k]];
      }
      assert assets[..|assets|] == assets;
    }
    assert messages[..|messages|] == messages;
  }

  lemma NothingKept(rooms: Rooms)
    ensures OrdinaryRooms(rooms, []) == [] && MediaOf([]) == map[]
  {
  }

  lemma OneMoreKept(rooms: Rooms, keys: seq<nat>, i: nat)
    requires i < |keys| && forall k :: k in keys ==> k in rooms
    ensures keys[i] in rooms
    ensures var room, kept := rooms[keys[i]], OrdinaryRooms(rooms, keys[..i]);
            && OrdinaryRooms(rooms, keys[..i + 1]) == (if room.incognito then kept else kept + [room])
            && MediaOf(kept + [room]) == WithMessages(MediaOf(kept), room.messages)
  {
    hide WithMessages;
    assert keys[i] in keys && keys[..i + 1][..i] == keys[..i];
    var room, kept := rooms[keys[i]], OrdinaryRooms(rooms, keys[..i]);
    assert (kept + [room])[..|kept|] == kept;
  }

  method TakeSnapshot(rooms: Rooms) returns (kept: seq<Room>, media: map<string, Asset>)
    ensures kept == Kept(rooms) && media == MediaOf(kept)
  {
    hide OrdinaryRooms, MediaOf, WithMessages;
    var keys := InOrder(rooms.Keys);
    NothingKept(rooms);
    kept, media := [], map[];
    for i := 0 to |keys|
      invariant kept == OrdinaryRooms(rooms, keys[..i]) && media == MediaOf(kept)
    {
      assert keys[i] in keys;
      OneMoreKept(rooms, keys, i);
      var room := rooms[keys[i]];
      if !room.incognito {
        media := CollectMedia(media, room.messages);
        kept := kept + [room];
      }
    }
    assert keys[..|keys|] == keys;
  }

  // ---------- what is restored ----------

  /** An attachment is shown as the saved asset with its id, if there is one. */
  function RestoredView(v: View, media: map<string, Asset>): View {
    if v.id in media then ViewOf(media[v.id]) else v
  }

  function RestoredViews(views: seq<View>, media: map<string, Asset>): (r: seq<View>)
    ensures |r| == |views|
    ensures forall k :: 0 <= k < |r| ==> r[k] == RestoredView(views[k], media)
  {
    seq(|views|, k requires 0 <= k < |views| => RestoredView(views[k], media))
  }

  function FoundAssets(views: seq<View>, media: map<string, Asset>): seq<Asset> {
    if views == [] then [] else
    var last := views[|views| - 1];
    FoundAssets(views[..|views| - 1], media) + if last.id in media then [media[last.id]] else []
  }

  function RestoredMessage(m: Message, media: map<string, Asset>): Message {
    m.(attachments := RestoredViews(m.attachments, media), media := FoundAssets(m.attachments, media))
  }

  function RestoredMessages(messages: seq<Message>, media: map<string, Asset>): (r: seq<Message>)
    ensures |r| == |messages|
    ensures forall k :: 0 <= k < |r| ==> r[k] == RestoredMessage(messages[k], media)
  {
    seq(|messages|, k requires 0 <= k < |messages| => RestoredMessage(messages[k], media))
  }

  /** A room as it is right after a start: nobody works in it, and it sleeps. */
  function AtRest(room: Room): Room {
    room.(busy := false, active := None, sleeping := true)
  }

  function RestoredRoom(room: Room, media: map<string, Asset>): Room {
    AtRest(room).(messages := RestoredMessages(room.messages, media))
  }

  function Max(a: nat, b: nat): nat {
    if a < b then b else a
  }

  function RaisedCounter(counter: nat, messages: seq<Message>): nat {
    if messages == [] then counter else
    Max(RaisedCounter(counter, messages[..|messages| - 1]), messages[|messages| - 1].id + 1)
  }

  /** One room is put in place, and the counters move above its ids. */
  function WithRestored(st: Store, room: Room, media: map<string, Asset>): Store {
    Store(st.rooms[room.id := RestoredRoom(room, media)], Max(st.nextRoom, room.id + 1),
          RaisedCounter(st.nextMessage, room.messages))
  }

  function Restored(st: Store, rooms: seq<Room>, media: map<string, Asset>): Store {
    if rooms == [] then st else
    WithRestored(Restored(st, rooms[..|rooms| - 1], media), rooms[|rooms| - 1], media)
  }

  // ---------- the saved assets ----------

  /** An asset that some message of these rooms carries. */
  predicate Carried(rooms: seq<Room>, a: Asset) {
    exists room :: room in rooms && CarriedIn(room.messages, a)
  }

  predicate CarriedIn(messages: seq<Message>, a: Asset) {
    exists m :: m in messages && a in m.media
  }

  lemma {:induction false} AssetsSaved(media: map<string, Asset>, assets: seq<Asset>, a: Asset)
    ensures a in assets ==> a.id in WithAssets(media, assets)
    ensures a.id in media ==> a.id in WithAssets(media, assets)
    ensures forall id :: id in WithAssets(media, assets) ==>
              (id in media && WithAssets(media, assets)[id] == media[id])
              || (WithAssets(media, assets)[id] in assets && WithAssets(media, assets)[id].id == id)
  {
    if assets != [] {
      var front, last := assets[..|assets| - 1], assets[|assets| - 1];
      assert forall x :: x in assets <==> x in front || x == last;
      AssetsSaved(media, front, a);
    }
  }

  lemma {:induction false} MessagesSaved(media: map<string, Asset>, messages: seq<Message>, a: Asset)
    ensures CarriedIn(messages, a) || a.id in media ==> a.id in WithMessages(media, messages)
    ensures var r := WithMessages(media, messages);
            forall id :: id in r ==>
                (id in media && r[id] == media[id]) || (CarriedIn(messages, r[id]) && r[id].id == id)
  {
    if messages != [] {
      var front, last := messages[..|messages| - 1], messages[|messages| - 1];
      assert forall m :: m in messages <==> m in front || m == last;
      assert CarriedIn(messages, a) ==> CarriedIn(front, a) || a in last.media;
      MessagesSaved(media, front, a);
      AssetsSaved(WithMessages(media, front), last.media, a);
      var r, before := WithMessages(media, messages), WithMessages(media, front);
      forall id | id in r
        ensures (id in media && r[id] == media[id]) || (CarriedIn(messages, r[id]) && r[id].id == id)
      {
        assert CarriedIn(front, r[id]) ==> CarriedIn(messages, r[id]);
        assert r[id] in last.media ==> CarriedIn(messages, r[id]);
      }
    }
  }

  /** The saved assets: for every id that occurs, one of the assets that carry it. */
  lemma {:induction false} RoomsSaved(rooms: seq<Room>, a: Asset)
    ensures Carried(rooms, a) ==> a.id in MediaOf(rooms)
    ensures forall id :: id in MediaOf(rooms) ==> Carried(rooms, MediaOf(rooms)[id]) && MediaOf(rooms)[id].id == id
  {
    if rooms != [] {
      var front, last := rooms[..|rooms| - 1], rooms[|rooms| - 1];
      assert forall x :: x in rooms <==> x in front || x == last;
      RoomsSaved(front, a);
      MessagesSaved(MediaOf(front), last.messages, a);
      var r := MediaOf(rooms);
      forall id | id in r
        ensures Carried(rooms, r[id]) && r[id].id == id
      {
        assert Carried(front, r[id]) ==> Carried(rooms, r[id]);
      }
    }
  }

  /** All assets, in the order in which a save comes to them. */
  function AssetsOf(messages: seq<Message>): seq<Asset> {
    if messages == [] then [] else AssetsOf(messages[..|messages| - 1]) + messages[|messages| - 1].media
  }

  function AllAssets(rooms: seq<Room>): seq<Asset> {
    if rooms == [] then [] else AllAssets(rooms[..|rooms| - 1]) + AssetsOf(rooms[|rooms| - 1].messages)
  }

  predicate IsLastOf(assets: seq<Asset>, id: string, a: Asset) {
    exists k :: 0 <= k < |assets| && assets[k] == a && a.id == id && forall j :: k < j < |assets| ==> assets[j].id != id
  }

  /** `later` is `media` with these assets, of which the last with an id counts. */
  ghost predicate TakesLast(media: map<string, Asset>, assets: seq<Asset>, later: map<string, Asset>) {
    forall id ::
      if exists k :: 0 <= k < |assets| && assets[k].id == id then id in later && IsLastOf(assets, id, later[id])
      else (id in later <==> id in media) && (id in media ==> later[id] == media[id])
  }

  lemma TakesOneMore(media: map<string, Asset>, assets: seq<Asset>, later: map<string, Asset>, a: Asset)
    requires TakesLast(media, assets, later)
    ensures TakesLast(media, assets + [a], later[a.id := a])
  {
    var more, r := assets + [a], later[a.id := a];
    forall id | exists k :: 0 <= k < |more| && more[k].id == id
      ensures id in r && IsLastOf(more, id, r[id])
    {
      if a.id == id {
        assert more[|assets|] == a;
      } else {
        var k :| 0 <= k < |more| && more[k].id == id;
        assert assets[k].id == id;
        var last :| 0 <= last < |assets| && assets[last] == later[id]
                    && forall j :: last < j < |assets| ==> assets[j].id != id;
        assert more[last] == r[id];
      }
    }
    forall id | !exists k :: 0 <= k < |more| && more[k].id == id
      ensures (id in r <==> id in media) && (id in media ==> r[id] == media[id])
    {
      assert more[|assets|].id != id;
      assert forall k :: 0 <= k < |assets| ==> more[k] == assets[k];
    }
  }

  lemma {:induction false} AssetsTaken(media: map<string, Asset>, before: seq<Asset>, sofar: map<string, Asset>,
                                       assets: seq<Asset>)
    requires TakesLast(media, before, sofar)
    ensures TakesLast(media, before + assets, WithAssets(sofar, assets))
  {
    hide TakesLast;
    if assets == [] {
      assert before + assets == before;
    } else {
      var front, last := assets[..|assets| - 1], assets[|assets| - 1];
      AssetsTaken(media, before, sofar, front);
      TakesOneMore(media, before + front, WithAssets(sofar, front), last);
      assert before + front + [last] == before + assets;
    }
  }

  lemma {:induction false} MessagesTaken(media: map<string, Asset>, before: seq<Asset>, sofar: map<string, Asset>,
                                         messages: seq<Message>)
    requires TakesLast(media, before, sofar)
    ensures TakesLast(media, before + AssetsOf(messages), WithMessages(sofar, messages))
  {
    hide TakesLast, WithAssets;
    if messages == [] {
      assert before + AssetsOf(messages) == before;
    } else {
      var front, last := messages[..|messages| - 1], messages[|messages| - 1];
      MessagesTaken(media, before, sofar, front);
      AssetsTaken(media, before + AssetsOf(front), WithMessages(sofar, front), last.media);
      assert before + AssetsOf(front) + last.media == before + AssetsOf(messages);
    }
  }

  /** Exactly the ids that occur are saved, each with the last asset that has it. */
  lemma {:induction false} MediaExactly(rooms: seq<Room>)
    ensures TakesLast(map[], AllAssets(rooms), MediaOf(rooms))
  {
    hide TakesLast, WithMessages, AssetsOf;
    if rooms == [] {
      NothingTaken();
    } else {
      var front, last := rooms[..|rooms| - 1], rooms[|rooms| - 1];
      MediaExactly(front);
      MessagesTaken(map[], AllAssets(front), MediaOf(front), last.messages);
    }
  }

  lemma NothingTaken()
    ensures TakesLast(map[], [], map[])
  {
  }

  /** No two assets of the ordinary rooms share an id. */
  ghost predicate OneAssetPerId(rooms: seq<Room>) {
    forall a, b :: Carried(rooms, a) && Carried(rooms, b) && a.id == b.id ==> a == b
  }

  // ---------- the round trip ----------

  /** New messages are made so: their attachments are the views of their assets. */
  predicate AttachmentsFit(room: Room) {
    forall m :: m in room.messages ==> m.attachments == Views(m.media)
  }

  lemma {:induction false} AllFound(views: seq<View>, media: map<string, Asset>)
    requires forall v :: v in views ==> v.id in media
    ensures |FoundAssets(views, media)| == |views|
    ensures forall k :: 0 <= k < |views| ==> FoundAssets(views, media)[k] == media[views[k].id]
  {
    if views != [] {
      var front := views[..|views| - 1];
      assert forall v :: v in front ==> v in views;
      AllFound(front, media);
    }
  }

  /** A message comes back as it was if and only if its assets are the saved ones. */
  lemma MessageReturns(m: Message, media: map<string, Asset>)
    requires m.attachments == Views(m.media) && forall a :: a in m.media ==> a.id in media
    ensures RestoredMessage(m.(media := []), media) == m <==> forall a :: a in m.media ==> media[a.id] == a
  {
    var views, assets := m.attachments, FoundAssets(m.attachments, media);
    AllFound(views, media);
    assert forall k :: 0 <= k < |m.media| ==> assets[k] == media[m.media[k].id];
    if forall a :: a in m.media ==> media[a.id] == a {
      assert assets == m.media;
      assert RestoredViews(views, media) == views;
    }
    if RestoredMessage(m.(media := []), media) == m {
      forall a | a in m.media
        ensures media[a.id] == a
      {
        var k :| 0 <= k < |m.media| && m.media[k] == a;
      }
    }
  }

  predicate AssetsAgree(messages: seq<Message>, media: map<string, Asset>) {
    forall m :: m in messages ==> forall a :: a in m.media ==> a.id in media && media[a.id] == a
  }

  lemma RoomReturns(room: Room, media: map<string, Asset>)
    requires AttachmentsFit(room)
    requires forall m :: m in room.messages ==> forall a :: a in m.media ==> a.id in media
    ensures RestoredRoom(Stripped(room), media) == AtRest(room) <==> AssetsAgree(room.messages, media)
  {
    hide RestoredMessage;
    var back := RestoredMessages(Stripped(room).messages, media);
    forall k | 0 <= k < |room.messages|
      ensures back[k] == room.messages[k] <==> forall a :: a in room.messages[k].media ==> media[a.id] == a
    {
      assert room.messages[k] in room.messages;
      MessageReturns(room.messages[k], media);
    }
    hide RestoredMessages;
    if AssetsAgree(room.messages, media) {
      assert forall k :: 0 <= k < |room.messages| ==> back[k] == room.messages[k];
      assert back == room.messages;
    }
    if back == room.messages {
      forall m | m in room.messages
        ensures forall a :: a in m.media ==> media[a.id] == a
      {
        var k :| 0 <= k < |room.messages| && room.messages[k] == m;
      }
    }
  }

  /** All rooms come back, at rest and otherwise unchanged, if and only if no id stands for two assets. */
  lemma RoomsReturnExactly(kept: seq<Room>)
    requires forall room :: room in kept ==> AttachmentsFit(room)
    ensures (forall room :: room in kept ==> RestoredRoom(Stripped(room), MediaOf(kept)) == AtRest(room)) <==>
              OneAssetPerId(kept)
  {
    var media := MediaOf(kept);
    forall room | room in kept
      ensures RestoredRoom(Stripped(room), media) == AtRest(room) <==> AssetsAgree(room.messages, media)
    {
      AllIdsSaved(kept, room);
      RoomReturns(room, media);
    }
    hide RestoredRoom, Stripped;
    if OneAssetPerId(kept) {
      forall room | room in kept
        ensures AssetsAgree(room.messages, media)
      {
        forall m, a | m in room.messages && a in m.media
          ensures a.id in media && media[a.id] == a
        {
          assert CarriedIn(room.messages, a) && Carried(kept, a);
          RoomsSaved(kept, a);
        }
      }
    }
    if forall room :: room in kept ==> AssetsAgree(room.messages, media) {
      forall a, b | Carried(kept, a) && Carried(kept, b) && a.id == b.id
        ensures a == b
      {
        SavedAsset(kept, media, a);
        SavedAsset(kept, media, b);
      }
    }
  }

  lemma AllIdsSaved(kept: seq<Room>, room: Room)
    requires room in kept
    ensures forall m :: m in room.messages ==> forall a :: a in m.media ==> a.id in MediaOf(kept)
  {
    forall m, a | m in room.messages && a in m.media
      ensures a.id in MediaOf(kept)
    {
      assert CarriedIn(room.messages, a) && Carried(kept, a);
      RoomsSaved(kept, a);
    }
  }

  lemma SavedAsset(kept: seq<Room>, media: map<string, Asset>, a: Asset)
    requires forall room :: room in kept ==> AssetsAgree(room.messages, media)
    requires Carried(kept, a)
    ensures a.id in media && media[a.id] == a
  {
    var room :| room in kept && CarriedIn(room.messages, a);
    var m :| m in room.messages && a in m.media;
  }

  // ---------- the restored store ----------

  predicate DistinctRooms(rooms: seq<Room>) {
    forall i, j :: 0 <= i < j < |rooms| ==> rooms[i].id != rooms[j].id
  }

  /** Each room is found under its id, and nothing else is there. */
  predicate Holds(back: Rooms, rooms: seq<Room>, media: map<string, Asset>) {
    && (forall room :: room in rooms ==> room.id in back && back[room.id] == RestoredRoom(room, media))
    && (forall id :: id in back ==> exists room :: room in rooms && room.id == id)
  }

  lemma {:induction false} RestoredHolds(rooms: seq<Room>, media: map<string, Asset>)
    requires DistinctRooms(rooms)
    ensures Holds(Restored(FRESH, rooms, media).rooms, rooms, media)
  {
    if rooms != [] {
      hide Holds, RestoredRoom;
      var front, last := rooms[..|rooms| - 1], rooms[|rooms| - 1];
      assert rooms == front + [last];
      LastIdIsNew(front, last);
      RestoredHolds(front, media);
      OneMoreHolds(Restored(FRESH, front, media).rooms, front, last, media);
    }
  }

  lemma OneMoreHolds(back: Rooms, front: seq<Room>, last: Room, media: map<string, Asset>)
    requires Holds(back, front, media) && forall room :: room in front ==> room.id != last.id
    ensures Holds(back[last.id := RestoredRoom(last, media)], front + [last], media)
  {
    hide RestoredRoom;
    var rooms, later := front + [last], back[last.id := RestoredRoom(last, media)];
    forall id | id in later
      ensures exists room :: room in rooms && room.id == id
    {
      if id == last.id {
        assert last in rooms;
      } else {
        var room :| room in front && room.id == id;
        assert room in rooms;
      }
    }
  }

  lemma LastIdIsNew(front: seq<Room>, last: Room)
    requires DistinctRooms(front + [last])
    ensures forall room :: room in front ==> room.id != last.id
  {
    forall room | room in front
      ensures room.id != last.id
    {
      var k :| 0 <= k < |front| && front[k] == room;
      assert (front + [last])[k] == room && (front + [last])[|front|] == last;
    }
  }

  lemma {:induction false} CounterRaised(counter: nat, messages: seq<Message>)
    ensures RaisedCounter(counter, messages) >= counter
    ensures forall m :: m in messages ==> m.id < RaisedCounter(counter, messages)
  {
    if messages != [] {
      var front, last := messages[..|messages| - 1], messages[|messages| - 1];
      assert forall m :: m in messages <==> m in front || m == last;
      CounterRaised(counter, front);
    }
  }

  lemma {:induction false} CountersAbove(rooms: seq<Room>, media: map<string, Asset>)
    ensures var st := Restored(FRESH, rooms, media);
            && st.nextRoom >= 1
            && (forall room :: room in rooms ==> room.id < st.nextRoom)
            && (forall room :: room in rooms ==> forall m :: m in room.messages ==> m.id < st.nextMessage)
  {
    if rooms != [] {
      var front, last := rooms[..|rooms| - 1], rooms[|rooms| - 1];
      assert forall x :: x in rooms <==> x in front || x == last;
      CountersAbove(front, media);
      CounterRaised(Restored(FRESH, front, media).nextMessage, last.messages);
    }
  }

  lemma {:induction false} CounterIsTaken(counter: nat, messages: seq<Message>)
    ensures var raised := RaisedCounter(counter, messages);
            raised == counter || exists m :: m in messages && raised == m.id + 1
  {
    if messages != [] {
      var front, last := messages[..|messages| - 1], messages[|messages| - 1];
      assert forall m :: m in messages <==> m in front || m == last;
      CounterIsTaken(counter, front);
    }
  }

  /** The counters are no higher than the ids make them. */
  lemma {:induction false} CountersAreTaken(rooms: seq<Room>, media: map<string, Asset>)
    ensures var st := Restored(FRESH, rooms, media);
            && (st.nextRoom == 1 || exists room :: room in rooms && st.nextRoom == room.id + 1)
            && (st.nextMessage == 1
                || exists room, m :: room in rooms && m in room.messages && st.nextMessage == m.id + 1)
  {
    hide RestoredRoom, RaisedCounter;
    if rooms != [] {
      var front, last := rooms[..|rooms| - 1], rooms[|rooms| - 1];
      assert forall x :: x in rooms <==> x in front || x == last;
      CountersAreTaken(front, media);
      CounterIsTaken(Restored(FRESH, front, media).nextMessage, last.messages);
    }
  }

  lemma {:induction false} KeptIdsAscend(rooms: Rooms, keys: seq<nat>)
    requires Ascending(keys) && (forall k :: k in keys ==> k in rooms) && forall k :: k in rooms ==> rooms[k].id == k
    ensures DistinctRooms(OrdinaryRooms(rooms, keys))
  {
    if keys != [] {
      var front, last := keys[..|keys| - 1], keys[|keys| - 1];
      assert forall k :: k in keys <==> k in front || k == last;
      KeptIdsAscend(rooms, front);
      var kept := OrdinaryRooms(rooms, front);
      assert forall i :: 0 <= i < |kept| ==> kept[i] in kept;
      assert forall k :: k in front ==> k < last;
    }
  }

  /** What the next start finds: the ordinary rooms, each at rest. */
  function NextStart(rooms: Rooms): Store {
    Restored(FRESH, Saved(rooms).rooms, Saved(rooms).media)
  }

  lemma KeptOfStore(st: Store)
    requires StoreOk(st)
    ensures DistinctRooms(Kept(st.rooms)) && DistinctRooms(AllStripped(Kept(st.rooms)))
    ensures forall room :: room in Kept(st.rooms) <==>
              room.id in st.rooms && !room.incognito && st.rooms[room.id] == room
  {
    forall k | k in st.rooms
      ensures st.rooms[k].id == k
    {
      assert RoomOk(k, st.rooms[k], st.nextMessage);
    }
    hide StoreOk;
    KeptIdsAscend(st.rooms, InOrder(st.rooms.Keys));
  }

  /** Each room of the next start is an ordinary room of now, with the same messages up to their assets. */
  lemma NextStartRooms(st: Store)
    requires StoreOk(st)
    ensures forall id :: id in NextStart(st.rooms).rooms <==> id in st.rooms && !st.rooms[id].incognito
    ensures forall id :: id in NextStart(st.rooms).rooms ==>
              NextStart(st.rooms).rooms[id] == RestoredRoom(Stripped(st.rooms[id]), Saved(st.rooms).media)
  {
    hide StoreOk, RestoredRoom, Kept, DistinctRooms, MediaOf;
    var kept, media := Kept(st.rooms), Saved(st.rooms).media;
    KeptOfStore(st);
    RestoredHolds(AllStripped(kept), media);
    hide Restored;
    var back := NextStart(st.rooms).rooms;
    forall id | id in st.rooms && !st.rooms[id].incognito
      ensures id in back && back[id] == RestoredRoom(Stripped(st.rooms[id]), media)
    {
      StrippedIsSaved(st, id);
    }
    forall id | id in back
      ensures id in st.rooms && !st.rooms[id].incognito
    {
      var room :| room in AllStripped(kept) && room.id == id;
      var k :| 0 <= k < |kept| && AllStripped(kept)[k] == room;
      assert kept[k] in kept && room == Stripped(kept[k]);
    }
  }

  lemma RoomHasItsId(st: Store, id: nat)
    requires StoreOk(st) && id in st.rooms
    ensures st.rooms[id].id == id
  {
    assert RoomOk(id, st.rooms[id], st.nextMessage);
  }

  /** Saving and restoring gives back every ordinary room, changed only by being at rest, provided that (and
      only if) no id stands for two assets. */
  lemma SnapshotRoundTrip(st: Store)
    requires StoreOk(st) && forall id :: id in st.rooms ==> AttachmentsFit(st.rooms[id])
    ensures OneAssetPerId(Kept(st.rooms)) <==>
            NextStart(st.rooms).rooms == map id | id in st.rooms && !st.rooms[id].incognito ::
                st.rooms[id].(busy := false, active := None, sleeping := true)
  {
    hide StoreOk, RestoredRoom, AttachmentsFit, Kept, NextStart, DistinctRooms, OneAssetPerId, MediaOf, AllStripped;
    var kept := Kept(st.rooms);
    KeptOfStore(st);
    NextStartRooms(st);
    forall id | id in st.rooms && !st.rooms[id].incognito
      ensures st.rooms[id] in kept
    {
      RoomHasItsId(st, id);
    }
    assert forall room :: room in kept ==> AttachmentsFit(room);
    RoomsReturnExactly(kept);
    AllAtRest(st.rooms, kept, NextStart(st.rooms).rooms, Saved(st.rooms).media);
  }

  /** What a restored message shows: an attachment whose asset was saved is shown as this asset, and carries it;
      any other attachment stays as it was, and carries nothing. */
  lemma RestoredMessageExactly(m: Message, media: map<string, Asset>)
    ensures var back := RestoredMessage(m, media);
            && back.(attachments := m.attachments, media := m.media) == m
            && |back.attachments| == |m.attachments|
            && (forall k :: 0 <= k < |m.attachments| ==>
                  var v := m.attachments[k];
                  if v.id in media then
                    && back.attachments[k] == View(media[v.id].id, media[v.id].name, media[v.id].mimeType,
                                                   "/api/media/" + media[v.id].id)
                    && |FoundAssets(m.attachments[..k], media)| < |back.media|
                    && back.media[|FoundAssets(m.attachments[..k], media)|] == media[v.id]
                  else back.attachments[k] == v)
            && |back.media| == |set k | 0 <= k < |m.attachments| && m.attachments[k].id in media|
  {
    hide FoundAssets;
    FoundCount(m.attachments, media);
    forall k | 0 <= k < |m.attachments| && m.attachments[k].id in media
      ensures |FoundAssets(m.attachments[..k], media)| < |FoundAssets(m.attachments, media)|
      ensures FoundAssets(m.attachments, media)[|FoundAssets(m.attachments[..k], media)|] == media[m.attachments[k].id]
    {
      FoundPlace(m.attachments, media, k);
    }
  }

  lemma {:induction false} FoundCount(views: seq<View>, media: map<string, Asset>)
    ensures |FoundAssets(views, media)| == |set k | 0 <= k < |views| && views[k].id in media|
  {
    if views != [] {
      var n := |views| - 1;
      FoundCount(views[..n], media);
      var before := set k | 0 <= k < n && views[..n][k].id in media;
      assert (set k | 0 <= k < |views| && views[k].id in media) == before + if views[n].id in media then {n} else {};
    }
  }

  lemma {:induction false} FoundPlace(views: seq<View>, media: map<string, Asset>, k: nat)
    requires k < |views| && views[k].id in media
    ensures |FoundAssets(views[..k], media)| < |FoundAssets(views, media)|
    ensures FoundAssets(views, media)[|FoundAssets(views[..k], media)|] == media[views[k].id]
  {
    var n := |views| - 1;
    if k < n {
      assert views[..n][..k] == views[..k] && views[..n][k] == views[k];
      FoundPlace(views[..n], media, k);
    }
  }

  /** Two ways to say that everything came back. */
  lemma AllAtRest(rooms: Rooms, kept: seq<Room>, back: Rooms, media: map<string, Asset>)
    requires forall room :: room in kept <==> room.id in rooms && !room.incognito && rooms[room.id] == room
    requires forall id :: id in rooms && !rooms[id].incognito ==> rooms[id] in kept
    requires forall id :: id in back <==> id in rooms && !rooms[id].incognito
    requires forall id :: id in back ==> back[id] == RestoredRoom(Stripped(rooms[id]), media)
    ensures (forall room :: room in kept ==> RestoredRoom(Stripped(room), media) == AtRest(room)) <==>
            back == map id | id in rooms && !rooms[id].incognito :: AtRest(rooms[id])
  {
    hide RestoredRoom, Stripped;
    if back == map id | id in rooms && !rooms[id].incognito :: AtRest(rooms[id]) {
      forall room | room in kept
        ensures RestoredRoom(Stripped(room), media) == AtRest(room)
      {
        assert room.id in back;
      }
    }
  }

  /** Restoring keeps what identifies the messages of a room. */
  lemma RestoredRoomOk(id: nat, room: Room, media: map<string, Asset>, bound: nat, nextMessage: nat)
    requires RoomOk(id, room, bound) && LifecycleOk(room)
    requires forall m :: m in Stripped(room).messages ==> m.id < nextMessage
    ensures var back := RestoredRoom(Stripped(room), media);
            && RoomOk(id, back, nextMessage) && LifecycleOk(back)
            && !back.busy && back.sleeping && back.members == room.members
  {
    var back := RestoredRoom(Stripped(room), media).messages;
    forall m | m in back
      ensures m.id < nextMessage
    {
      var k :| 0 <= k < |back| && back[k] == m;
      assert Stripped(room).messages[k] in Stripped(room).messages;
    }
  }

  /** A room of the file, and the room that it was made from. */
  lemma SavedRoom(st: Store, room: Room) returns (id: nat)
    requires StoreOk(st) && room in AllStripped(Kept(st.rooms))
    ensures id in st.rooms && !st.rooms[id].incognito && room == Stripped(st.rooms[id]) && room.id == id
  {
    hide StoreOk, Kept, DistinctRooms;
    KeptOfStore(st);
    var kept := Kept(st.rooms);
    var k :| 0 <= k < |kept| && AllStripped(kept)[k] == room;
    assert kept[k] in kept;
    id := room.id;
  }

  /** Ids go on where the ordinary rooms stop: the next room id is one more than that of some ordinary room, and the
      next message id one more than that of a message in one, or 1 if there is none. */
  lemma IdsGoOn(st: Store)
    requires StoreOk(st)
    ensures var next := NextStart(st.rooms);
            && (next.nextRoom == 1
                || exists id :: id in st.rooms && !st.rooms[id].incognito && next.nextRoom == id + 1)
            && (next.nextMessage == 1
                || exists id, m :: id in st.rooms && !st.rooms[id].incognito && m in st.rooms[id].messages
                                   && next.nextMessage == m.id + 1)
  {
    hide StoreOk, Kept, DistinctRooms, MediaOf, Restored;
    var next, rooms := NextStart(st.rooms), AllStripped(Kept(st.rooms));
    CountersAreTaken(rooms, Saved(st.rooms).media);
    if next.nextRoom != 1 {
      var room :| room in rooms && next.nextRoom == room.id + 1;
      var id := SavedRoom(st, room);
    }
    if next.nextMessage != 1 {
      var room, m :| room in rooms && m in room.messages && next.nextMessage == m.id + 1;
      var id := SavedRoom(st, room);
      var k :| 0 <= k < |room.messages| && room.messages[k] == m;
      assert st.rooms[id].messages[k] in st.rooms[id].messages && st.rooms[id].messages[k].id == m.id;
    }
  }

  lemma RestoredApart(a: Room, b: Room, media: map<string, Asset>)
    requires Apart(a, b)
    ensures Apart(RestoredRoom(Stripped(a), media), RestoredRoom(Stripped(b), media))
  {
    hide RestoredRoom, Stripped;
    var x, y := RestoredRoom(Stripped(a), media).messages, RestoredRoom(Stripped(b), media).messages;
    forall m, n | m in x && n in y
      ensures m.id != n.id
    {
      var p := OriginOf(a, media, m);
      var q := OriginOf(b, media, n);
    }
  }

  /** The message that was restored as `m`. */
  lemma OriginOf(room: Room, media: map<string, Asset>, m: Message) returns (origin: Message)
    requires m in RestoredRoom(Stripped(room), media).messages
    ensures origin in room.messages && origin.id == m.id
  {
    var back := RestoredRoom(Stripped(room), media).messages;
    var k :| 0 <= k < |back| && back[k] == m;
    origin := room.messages[k];
  }

  /** The next start begins in good order: no id that was saved will be given out again, nobody is busy, and
      every room sleeps. */
  lemma NextStartIsInOrder(st: Store)
    requires StoreOk(st)
    ensures StoreOk(NextStart(st.rooms))
    ensures forall id :: id in NextStart(st.rooms).rooms ==>
              !NextStart(st.rooms).rooms[id].busy && NextStart(st.rooms).rooms[id].sleeping
  {
    hide Kept, DistinctMembers, DistinctRooms, RestoredRoom, MediaOf, Apart, RoomOk, LifecycleOk;
    var back, media := NextStart(st.rooms), Saved(st.rooms).media;
    NextStartRooms(st);
    CountersAbove(AllStripped(Kept(st.rooms)), media);
    hide NextStart, Saved, Restored;
    forall id | id in back.rooms
      ensures id < back.nextRoom && RoomOk(id, back.rooms[id], back.nextMessage) && LifecycleOk(back.rooms[id])
      ensures |back.rooms[id].members| >= 1 && DistinctMembers(back.rooms[id].members)
      ensures !back.rooms[id].busy && back.rooms[id].sleeping
    {
      StrippedIsSaved(st, id);
      RestoredRoomOk(id, st.rooms[id], media, st.nextMessage, back.nextMessage);
    }
    forall r, s | r in back.rooms && s in back.rooms && r != s
      ensures Apart(back.rooms[r], back.rooms[s])
    {
      RestoredApart(st.rooms[r], st.rooms[s], media);
    }
  }

  /** After a restart attachments again show exactly the assets of their message, whichever asset an id stands for. */
  lemma RestoredMessageFits(m: Message, media: map<string, Asset>)
    requires m.attachments == Views(m.media) && forall a :: a in m.media ==> a.id in media
    ensures var back := RestoredMessage(m.(media := []), media); back.attachments == Views(back.media)
  {
    AllFound(m.attachments, media);
  }

  lemma RestoredRoomFits(room: Room, media: map<string, Asset>)
    requires AttachmentsFit(room)
    requires forall m :: m in room.messages ==> forall a :: a in m.media ==> a.id in media
    ensures AttachmentsFit(RestoredRoom(Stripped(room), media))
  {
    hide RestoredMessage;
    var back := RestoredRoom(Stripped(room), media).messages;
    forall m | m in back
      ensures m.attachments == Views(m.media)
    {
      var k :| 0 <= k < |back| && back[k] == m;
      assert room.messages[k] in room.messages;
      RestoredMessageFits(room.messages[k], media);
    }
  }

  lemma NextStartFits(st: Store)
    requires StoreOk(st) && forall id :: id in st.rooms ==> AttachmentsFit(st.rooms[id])
    ensures forall id :: id in NextStart(st.rooms).rooms ==> AttachmentsFit(NextStart(st.rooms).rooms[id])
  {
    hide StoreOk, AttachmentsFit, NextStart, RestoredRoom, Stripped, MediaOf, Kept;
    NextStartRooms(st);
    KeptOfStore(st);
    forall id | id in NextStart(st.rooms).rooms
      ensures AttachmentsFit(NextStart(st.rooms).rooms[id])
    {
      RoomHasItsId(st, id);
      AllIdsSaved(Kept(st.rooms), st.rooms[id]);
      RestoredRoomFits(st.rooms[id], Saved(st.rooms).media);
    }
  }

  lemma StrippedIsSaved(st: Store, id: nat)
    requires StoreOk(st) && id in st.rooms && !st.rooms[id].incognito
    ensures Stripped(st.rooms[id]) in AllStripped(Kept(st.rooms)) && Stripped(st.rooms[id]).id == id
  {
    KeptOfStore(st);
    RoomHasItsId(st, id);
    hide StoreOk, Kept, DistinctRooms;
    var kept := Kept(st.rooms);
    assert st.rooms[id] in kept;
    var k :| 0 <= k < |kept| && kept[k] == st.rooms[id];
    assert AllStripped(kept)[k] == Stripped(kept[k]);
  }
}
