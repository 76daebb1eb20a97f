/** The map from chat rooms to provider threads that an LLM Resident keeps, and the copy of it on disk. */
module Conversations {
  import opened Options
  import opened SlotFile

  type Threads = map<nat, Option<string>>

  /** One handled turn: its room (0 when the request has no chat origin), whether the room is incognito, the
      thread that the conversation has afterwards, whether the turn completed, the fates of a save, and
      those of the reads of a restart should the save kill the process. */
  datatype Turn = Turn(room: nat, incognito: bool, thread: Option<string>, completed: bool, fates: Fates,
                       rereads: ReadFates)

  datatype Book = Book(threads: Threads, privateRooms: set<nat>)

  /** The part of the map that may be written to disk. */
  function Persisted(b: Book): (saved: Threads)
    ensures saved.Keys == b.threads.Keys - b.privateRooms - {0}
    ensures forall id :: id in saved ==> saved[id] == b.threads[id]
  {
    map id | id in b.threads && id != 0 && id !in b.privateRooms :: b.threads[id]
  }

  function Noted(b: Book, t: Turn): Book {
    Book(b.threads[t.room := t.thread], if t.incognito then b.privateRooms + {t.room} else b.privateRooms)
  }

  predicate SavesAfter(t: Turn) {
    !t.incognito && t.completed
  }

  datatype World = World(book: Book, disk: Slots<Threads>)

  /** A file that cannot be read is logged, and the Resident starts with an empty map. */
  function Restarted(disk: Slots<Threads>, rereads: ReadFates): Book {
    match Load(disk, rereads)
    case Value(Some(threads)) => Book(threads, {})
    case _ => Book(map[], {})
  }

  /** One turn. An error of the save is only logged; after a crash the Resident starts again from disk. */
  function Handle(w: World, t: Turn): World {
    var book := Noted(w.book, t);
    if !SavesAfter(t) then World(book, w.disk) else
    var (disk, outcome) := SaveSteps(w.disk, Persisted(book), t.fates);
    World(if outcome == Crashed then Restarted(disk, t.rereads) else book, disk)
  }

  function HandleAll(w: World, turns: seq<Turn>, n: nat): World
    requires n <= |turns|
  {
    if n == 0 then w else Handle(HandleAll(w, turns, n - 1), turns[n - 1])
  }

  /** The rooms seen as incognito by the first `n` turns. */
  function SeenPrivate(turns: seq<Turn>, n: nat): set<nat>
    requires n <= |turns|
  {
    if n == 0 then {} else
    SeenPrivate(turns, n - 1) + if turns[n - 1].incognito then {turns[n - 1].room} else {}
  }

  /** A file that is whole has no incognito room in it. */
  predicate SlotDiscreet(slot: Slot<Threads>, privateRooms: set<nat>) {
    slot.Present? && slot.content.Whole? ==> slot.content.value.Keys !! privateRooms && 0 !in slot.content.value
  }

  /** The promise of everything on disk, and of the maps that will be written next. */
  predicate Discreet(w: World, privateRooms: set<nat>) {
    && SlotDiscreet(w.disk.main, privateRooms)
    && SlotDiscreet(w.disk.backup, privateRooms)
    && SlotDiscreet(w.disk.pending, privateRooms)
    && w.book.privateRooms <= privateRooms
    && w.book.threads.Keys * privateRooms <= w.book.privateRooms
  }

  /** A start takes over what the disk holds; when it finds nothing, or cannot read it, it begins empty. */
  lemma RestartsExactly(disk: Slots<Threads>, rereads: ReadFates)
    requires Clean(disk)
    ensures var book := Restarted(disk, rereads);
            && book.privateRooms == {}
            && (book.threads == map[] || Some(book.threads) == Current(disk))
            && (rereads == ReadFates(Do, Do, Do) ==>
                  book.threads == match Current(disk) case None => map[] case Some(threads) => threads)
  {
    ReadersSeeTheCurrentValue(disk, rereads);
  }

  /** A turn that completes in an ordinary room, and is saved, survives a restart that can read: the room goes on
      with the thread of this turn, and every other ordinary room with its own. */
  lemma ThreadsSurviveRestarts(w: World, t: Turn, id: nat)
    requires Clean(w.disk) && !t.incognito && t.completed
    requires SaveSteps(w.disk, Persisted(Noted(w.book, t)), t.fates).1 == Saved
    ensures var later := Handle(w, t);
            && later.book.threads == w.book.threads[t.room := t.thread]
            && later.book.privateRooms == w.book.privateRooms
            && var again := Restarted(later.disk, ReadFates(Do, Do, Do)).threads;
               && (id in again <==> (id == t.room || id in w.book.threads) && id != 0 && id !in w.book.privateRooms)
               && (id in again ==> again[id] == if id == t.room then t.thread else w.book.threads[id])
  {
    SaveAnyState(w.disk, Persisted(Noted(w.book, t)), t.fates);
    RestartsExactly(Handle(w, t).disk, ReadFates(Do, Do, Do));
    hide SaveSteps;
  }

  /** An incognito room is noted as such before anything else happens. */
  lemma IncognitoIsNoted(w: World, t: Turn)
    requires t.incognito
    ensures var later := Handle(w, t);
            && later.disk == w.disk && later.book.privateRooms == w.book.privateRooms + {t.room}
            && later.book.threads == w.book.threads[t.room := t.thread]
  {
  }

  /** One save never writes a room that has been seen as incognito since the last start. */
  lemma EachSaveIsDiscreet(w: World, first: ReadFates, turns: seq<Turn>, n: nat)
    requires w.book == Restarted(w.disk, first) && n <= |turns|
    requires forall k :: 0 <= k < n && SavesAfter(turns[k]) ==>
               SaveSteps(HandleAll(w, turns, k).disk, Persisted(Noted(HandleAll(w, turns, k).book, turns[k])),
                         turns[k].fates).1 != Crashed
    ensures HandleAll(w, turns, n).book.privateRooms == SeenPrivate(turns, n)
    ensures n < |turns| && SavesAfter(turns[n]) ==>
              Persisted(Noted(HandleAll(w, turns, n).book, turns[n])).Keys !! SeenPrivate(turns, n + 1)
  {
    if n > 0 {
      EachSaveIsDiscreet(w, first, turns, n - 1);
    }
  }

  /** Chat fixes at creation whether a room is incognito. Under that rule, whatever fails and whenever the
      process dies, no incognito room is ever in any of the three files, not even after a restart forgets which
      rooms were private. */
  lemma {:induction false} IncognitoNeverReachesDisk(w: World, turns: seq<Turn>, n: nat, privateRooms: set<nat>)
    requires Discreet(w, privateRooms) && n <= |turns|
    requires forall k :: 0 <= k < |turns| ==> (turns[k].incognito <==> turns[k].room in privateRooms)
    ensures Discreet(HandleAll(w, turns, n), privateRooms)
  {
    if n > 0 {
      hide Discreet, Handle;
      IncognitoNeverReachesDisk(w, turns, n - 1, privateRooms);
      TurnIsDiscreet(HandleAll(w, turns, n - 1), turns[n - 1], privateRooms);
    }
  }

  lemma TurnIsDiscreet(w: World, t: Turn, privateRooms: set<nat>)
    requires Discreet(w, privateRooms) && (t.incognito <==> t.room in privateRooms)
    ensures Discreet(Handle(w, t), privateRooms)
  {
    hide SaveSteps, SlotDiscreet, Load;
    var book := Noted(w.book, t);
    var later := SaveSteps(w.disk, Persisted(book), t.fates).0;
    SlotsComeFromSaves(w.disk, Persisted(book), t.fates);
    assert Persisted(book).Keys !! privateRooms;
    NewSlotIsDiscreet(later.main, w.disk, Persisted(book), privateRooms);
    NewSlotIsDiscreet(later.backup, w.disk, Persisted(book), privateRooms);
    NewSlotIsDiscreet(later.pending, w.disk, Persisted(book), privateRooms);
    RestartIsDiscreet(later, t.rereads, privateRooms);
  }

  lemma NewSlotIsDiscreet(slot: Slot<Threads>, disk: Slots<Threads>, saved: Threads, privateRooms: set<nat>)
    requires From(slot, disk, saved) && saved.Keys !! privateRooms && 0 !in saved
    requires SlotDiscreet(disk.main, privateRooms) && SlotDiscreet(disk.backup, privateRooms)
    requires SlotDiscreet(disk.pending, privateRooms)
    ensures SlotDiscreet(slot, privateRooms)
  {
  }

  lemma RestartIsDiscreet(disk: Slots<Threads>, rereads: ReadFates, privateRooms: set<nat>)
    requires SlotDiscreet(disk.main, privateRooms) && SlotDiscreet(disk.backup, privateRooms)
    ensures var book := Restarted(disk, rereads); book.privateRooms == {} && book.threads.Keys !! privateRooms
  {
  }

  /** The rule is needed: a room that changes its mind stays in the map saved before. */
  lemma ChangedMindExample()
    ensures var ok, calm := Fates(Do, Do, Do, Do, Do, Do, Do, Do, Do, Do, Do), ReadFates(Do, Do, Do);
            var turns := [Turn(7, false, Some("t"), true, ok, calm), Turn(7, true, Some("t"), true, ok, calm)];
            var w := HandleAll(World(Book(map[], {}), Slots(Absent, Absent, Absent)), turns, 2);
            7 in SeenPrivate(turns, 2) && Current(w.disk) == Some(map[7 := Some("t")])
  {
    var ok, calm := Fates(Do, Do, Do, Do, Do, Do, Do, Do, Do, Do, Do), ReadFates(Do, Do, Do);
    var turns := [Turn(7, false, Some("t"), true, ok, calm), Turn(7, true, Some("t"), true, ok, calm)];
    var w := World(Book(map[], {}), Slots(Absent, Absent, Absent));
    var book := Noted(w.book, turns[0]);
    assert Persisted(book) == map[7 := Some("t")];
    assert HandleAll(w, turns, 1) == Handle(HandleAll(w, turns, 0), turns[0]);
    assert HandleAll(w, turns, 2) == Handle(HandleAll(w, turns, 1), turns[1]);
  }

  /** The worker's own copy of the map, with its file. */
  class Worker {
    var threads: Threads
    var privateRooms: set<nat>
    const file: SnapshotFile<Threads>

    constructor (file: SnapshotFile<Threads>, first: ReadFates)
      ensures this.file == file && Book(threads, privateRooms) == Restarted(file.State(), first)
    {
      this.file := file;
      var book := Restarted(file.State(), first);
      this.threads, this.privateRooms := book.threads, book.privateRooms;
    }

    method HandleTurn(t: Turn) returns (alive: bool)
      modifies this`threads, this`privateRooms, file
      ensures var w := Handle(World(Book(old(threads), old(privateRooms)), old(file.State())), t);
              file.State() == w.disk && (alive ==> Book(threads, privateRooms) == w.book)
    {
      if t.incognito {
        privateRooms := privateRooms + {t.room};
      }
      threads := threads[t.room := t.thread];
      alive := true;
      if SavesAfter(t) {
        var outcome := file.Save(Persisted(Book(threads, privateRooms)), t.fates);
        alive := outcome != Crashed;
      }
    }
  }
}
