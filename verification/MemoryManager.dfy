/** The memory manager: each operation works on a copy, saves the copy, and only then replaces
    the memory it holds. */
module MemoryManager {
  import opened Options
  import opened Memory
  import opened Evidence
  import opened SlotFile
  import opened Gathering
  import Text

  /** What opening the file yields when no read fails. */
  function Reopened(s: Slots<Memory>): Memory {
    match Current(s)
    case None => DEFAULT
    case Some(m) => m
  }

  datatype Status = Status(enabled: bool, stored: nat, cached: nat, hot: nat)

  function CachedCount(facts: seq<Fact>): nat {
    if facts == [] then 0 else
    CachedCount(facts[..|facts| - 1]) + if facts[|facts| - 1].cacheSince.Some? then 1 else 0
  }

  function StatusOf(m: Memory): Status {
    Status(m.enabled, |m.facts|, CachedCount(m.facts), HotCount(m.facts))
  }

  /** The texts of the hot facts, in the order of the facts. */
  function HotTexts(facts: seq<Fact>): seq<string> {
    if facts == [] then [] else
    HotTexts(facts[..|facts| - 1]) + if Hot(facts[|facts| - 1]) then [facts[|facts| - 1].text] else []
  }

  /** The status counts the facts, the cached ones and the hot ones. */
  lemma StatusExactly(m: Memory)
    ensures StatusOf(m).enabled == m.enabled && StatusOf(m).stored == |m.facts|
    ensures StatusOf(m).cached == |set i | 0 <= i < |m.facts| && m.facts[i].cacheSince.Some?|
    ensures StatusOf(m).hot == |set i | 0 <= i < |m.facts| && m.facts[i].hotSince.Some?|
  {
    CachedExactly(m.facts);
    HotExactly(m.facts);
    assert Places(m.facts, InCache) == set i | 0 <= i < |m.facts| && m.facts[i].cacheSince.Some?;
    assert Places(m.facts, Hot) == set i | 0 <= i < |m.facts| && m.facts[i].hotSince.Some?;
  }

  predicate InCache(f: Fact) {
    f.cacheSince.Some?
  }

  function Places(facts: seq<Fact>, test: Fact -> bool): set<nat> {
    set i | 0 <= i < |facts| && test(facts[i])
  }

  lemma OneMorePlace(facts: seq<Fact>, test: Fact -> bool)
    requires facts != []
    ensures var n, before := |facts| - 1, Places(facts[..|facts| - 1], test);
            |Places(facts, test)| == |before| + if test(facts[n]) then 1 else 0
  {
    var n := |facts| - 1;
    var front := facts[..n];
    var before := Places(front, test);
    assert forall i :: 0 <= i < n ==> front[i] == facts[i];
    assert n !in before;
    assert Places(facts, test) == if test(facts[n]) then before + {n} else before;
  }

  lemma {:induction false} CachedExactly(facts: seq<Fact>)
    ensures CachedCount(facts) == |Places(facts, InCache)|
  {
    hide Places;
    if facts == [] {
      NoPlaces(InCache);
    } else {
      CachedExactly(facts[..|facts| - 1]);
      OneMorePlace(facts, InCache);
    }
  }

  lemma {:induction false} HotExactly(facts: seq<Fact>)
    ensures HotCount(facts) == |Places(facts, Hot)|
  {
    hide Places;
    if facts == [] {
      NoPlaces(Hot);
    } else {
      HotExactly(facts[..|facts| - 1]);
      OneMorePlace(facts, Hot);
    }
  }

  lemma NoPlaces(test: Fact -> bool)
    ensures |Places([], test)| == 0
  {
    assert Places([], test) == {};
  }

  /** The text of each hot fact stands after those of the hot facts before it, and there are no others. */
  lemma {:induction false} HotTextsExactly(facts: seq<Fact>)
    ensures |HotTexts(facts)| == HotCount(facts)
    ensures forall i :: 0 <= i < |facts| && facts[i].hotSince.Some? ==>
              HotCount(facts[..i]) < |HotTexts(facts)| && HotTexts(facts)[HotCount(facts[..i])] == facts[i].text
  {
    if facts != [] {
      var n := |facts| - 1;
      var front := facts[..n];
      HotTextsExactly(front);
      forall i | 0 <= i < |facts| && facts[i].hotSince.Some?
        ensures HotCount(facts[..i]) < |HotTexts(facts)| && HotTexts(facts)[HotCount(facts[..i])] == facts[i].text
      {
        if i < n {
          assert front[..i] == facts[..i] && front[i] == facts[i];
        }
      }
    }
  }

  // ---------- one operation ----------

  /** Store `next` unless the operation found nothing to store. */
  function Commit(m: Memory, disk: Slots<Memory>, next: Memory, saves: bool, f: Fates):
    (Memory, Slots<Memory>, Outcome)
  {
    if !saves then (m, disk, Saved) else
    var (disk', outcome) := SaveSteps(disk, next, f);
    (if outcome == Saved then next else m, disk', outcome)
  }

  /** `hot` saves only when its pass changed something, `apply` only when there is something to apply. */
  predicate Saves(m: Memory, op: Op) {
    match op
    case Apply(_, events, _, _) => events != [] && m.enabled
    case ReadHot(now) => m.enabled && Balanced(m.facts, now) != m.facts
    case SetEnabled(_) => true
  }

  /** The one fault that breaks a save: see `SaveIsAtomicExactly`. */
  predicate Faulty(m: Memory, disk: Slots<Memory>, op: Op, f: Fates) {
    Saves(m, op) && StaleRollback(disk, Next(m, op), f)
  }

  /** Success, error or crash: what is in memory is what reopening yields, a failed operation changes neither,
      and a crash reopens to the state before or to the state after. */
  predicate InStep(m: Memory, disk: Slots<Memory>, op: Op, f: Fates) {
    var (m', disk', outcome) := Commit(m, disk, Next(m, op), Saves(m, op), f);
    match outcome
    case Saved => m' == Reopened(disk') == Next(m, op)
    case Refused => m' == Reopened(disk') == m
    case Crashed => Reopened(disk') == m || Reopened(disk') == Next(m, op)
  }

  /** Memory and disk stay in step, whatever fails, if and only if the save does not meet the one fault. */
  lemma MemoryEqualsDisk(m: Memory, disk: Slots<Memory>, op: Op, f: Fates)
    requires Clean(disk) && m == Reopened(disk)
    ensures Clean(Commit(m, disk, Next(m, op), Saves(m, op), f).1)
    ensures InStep(m, disk, op, f) <==> !Faulty(m, disk, op, f)
  {
    hide Next;
    if Saves(m, op) {
      hide Saves;
      SaveIsAtomicExactly(disk, Next(m, op), f);
      if StaleRollback(disk, Next(m, op), f) {
        StaleIsSeen(m, disk, Next(m, op), f);
      }
    } else {
      NothingToSave(m, op);
    }
  }

  lemma NothingToSave(m: Memory, op: Op)
    requires !Saves(m, op)
    ensures Next(m, op) == m
  {
  }

  /** After the fault a reader gets a memory that is neither the one before nor the new one. */
  lemma StaleIsSeen(m: Memory, disk: Slots<Memory>, next: Memory, f: Fates)
    requires Clean(disk) && m == Reopened(disk) && StaleRollback(disk, next, f)
    ensures var (disk', outcome) := SaveSteps(disk, next, f);
            outcome != Saved && Reopened(disk') != m && (outcome == Crashed ==> Reopened(disk') != next)
  {
  }

  lemma CommitKeeps(m: Memory, disk: Slots<Memory>, op: Op, f: Fates)
    requires Clean(disk)
    ensures var (m', disk', outcome) := Commit(m, disk, Next(m, op), Saves(m, op), f);
            && Clean(disk')
            && (m == Reopened(disk) && !Faulty(m, disk, op, f) ==>
                  && (outcome != Crashed ==> m' == Reopened(disk'))
                  && Reopened(disk') in {m, Next(m, op)})
  {
    hide Next, Saves, Faulty;
    SaveAnyState(disk, Next(m, op), f);
    if m == Reopened(disk) {
      MemoryEqualsDisk(m, disk, op, f);
    }
  }

  // ---------- starting ----------

  /** A start of the program: it fails when the file cannot be read, and begins empty when it finds none. */
  function StartedFrom(disk: Slots<Memory>, rereads: ReadFates): Option<Memory> {
    match Open(disk, rereads)
    case ReadError => None
    case Value(None) => Some(DEFAULT)
    case Value(Some(m)) => Some(m)
  }

  /** The start does not see a backup that holds more than the empty memory. */
  predicate MissesMemory(disk: Slots<Memory>, rereads: ReadFates) {
    MissesBackup(disk, rereads) && disk.backup != Present(Whole(DEFAULT))
  }

  /** A start that succeeds begins with the memory on disk if and only if it does not miss a backup; it fails exactly
      when a file that is there cannot be read. */
  lemma StartsFromDiskExactly(disk: Slots<Memory>, rereads: ReadFates)
    requires Clean(disk)
    ensures (StartedFrom(disk, rereads).None? || StartedFrom(disk, rereads) == Some(Reopened(disk)))
            <==> !MissesMemory(disk, rereads)
    ensures MissesMemory(disk, rereads) ==> StartedFrom(disk, rereads) == Some(DEFAULT)
    ensures StartedFrom(disk, rereads).None? <==>
              || rereads.main != Do
              || (disk.main.Absent? && disk.backup.Present? && rereads.probe == Do && rereads.backup != Do)
  {
  }

  // ---------- runs with errors, crashes and restarts ----------

  /** An operation, or the end of the program (if it runs) and a new start. */
  datatype Action = Operate(op: Op, fates: Fates) | Restart(rereads: ReadFates)

  /** The memory of the program while it runs, and the three slots. */
  datatype World = World(memory: Option<Memory>, disk: Slots<Memory>)

  /** A crash ends the program until a start succeeds; nothing can be asked of it meanwhile. */
  function Act(w: World, a: Action): World {
    match a
    case Restart(rereads) => World(StartedFrom(w.disk, rereads), w.disk)
    case Operate(op, fates) =>
      if w.memory.None? then w else
      var m := w.memory.value;
      var (m', disk, outcome) := Commit(m, w.disk, Next(m, op), Saves(m, op), fates);
      World(if outcome == Crashed then None else Some(m'), disk)
  }

  function ActAll(w: World, actions: seq<Action>, n: nat): World
    requires n <= |actions|
  {
    if n == 0 then w else Act(ActAll(w, actions, n - 1), actions[n - 1])
  }

  const EMPTY := World(Some(DEFAULT), Slots(Absent, Absent, Absent))

  ghost predicate ValidAction(a: Action) {
    a.Operate? ==> ValidOp(a.op)
  }

  ghost predicate ValidOps(actions: seq<Action>) {
    forall i :: 0 <= i < |actions| ==> ValidAction(actions[i])
  }

  /** The user messages that an action shows to the program. */
  function ShownBy(w: World, a: Action): set<nat> {
    if a.Operate? && w.memory.Some? then Shown(a.op) else {}
  }

  /** The user messages shown by the first `n` actions. */
  function ShownTo(actions: seq<Action>, n: nat): set<nat>
    requires n <= |actions|
  {
    if n == 0 then {} else ShownTo(actions, n - 1) + ShownBy(ActAll(EMPTY, actions, n - 1), actions[n - 1])
  }

  predicate Evident(facts: seq<Fact>, shown: set<nat>) {
    forall k, id :: 0 <= k < |facts| && id in facts[k].sources ==> id in shown
  }

  /** These facts are sound, the hot tier is within its capacity, and all evidence was shown. */
  predicate Known(facts: seq<Fact>, shown: set<nat>) {
    Tidy(facts) && Evident(facts, shown)
  }

  predicate SlotKnown(slot: Slot<Memory>, shown: set<nat>) {
    slot.Present? && slot.content.Whole? ==> Known(slot.content.value.facts, shown)
  }

  predicate AllKnown(w: World, shown: set<nat>) {
    && (w.memory.Some? ==> Known(w.memory.value.facts, shown))
    && SlotKnown(w.disk.main, shown) && SlotKnown(w.disk.backup, shown) && SlotKnown(w.disk.pending, shown)
  }

  lemma KnownLater(facts: seq<Fact>, shown: set<nat>, more: set<nat>)
    requires Known(facts, shown) && shown <= more
    ensures Known(facts, more)
  {
    hide Tidy;
  }

  lemma NextIsKnown(m: Memory, op: Op, shown: set<nat>)
    requires Known(m.facts, shown) && ValidOp(op)
    ensures Known(Next(m, op).facts, shown + Shown(op))
  {
    hide Next, ValidOp, Shown, SoundFacts, HotCount;
    OpGrows(m, op);
    OpIsTidy(m, op);
    StillEvident(m.facts, Next(m, op).facts, shown, Shown(op));
  }

  lemma StillEvident(facts: seq<Fact>, later: seq<Fact>, shown: set<nat>, more: set<nat>)
    requires Evident(facts, shown) && Grows(facts, later, more)
    ensures Evident(later, shown + more)
  {
  }

  lemma SavedSlotIsKnown(slot: Slot<Memory>, disk: Slots<Memory>, next: Memory, shown: set<nat>, more: set<nat>)
    requires From(slot, disk, next) && Known(next.facts, more) && shown <= more
    requires SlotKnown(disk.main, shown) && SlotKnown(disk.backup, shown) && SlotKnown(disk.pending, shown)
    ensures SlotKnown(slot, more)
  {
    hide Known;
    forall facts | Known(facts, shown)
      ensures Known(facts, more)
    {
      KnownLater(facts, shown, more);
    }
  }

  lemma ActIsKnown(w: World, a: Action, shown: set<nat>)
    requires AllKnown(w, shown) && ValidAction(a)
    ensures AllKnown(Act(w, a), shown + ShownBy(w, a))
  {
    hide Known, SlotKnown, Shown, Commit, StartedFrom, Next, Saves, ValidOp;
    assert shown + {} == shown;
    match a
    case Restart(rereads) => StartIsKnown(w.disk, rereads, shown);
    case Operate(op, fates) =>
      if w.memory.Some? {
        OperationIsKnown(w.memory.value, w.disk, op, fates, shown);
      }
  }

  lemma OperationIsKnown(m: Memory, disk: Slots<Memory>, op: Op, fates: Fates, shown: set<nat>)
    requires Known(m.facts, shown) && ValidOp(op)
    requires SlotKnown(disk.main, shown) && SlotKnown(disk.backup, shown) && SlotKnown(disk.pending, shown)
    ensures var (m', disk', outcome) := Commit(m, disk, Next(m, op), Saves(m, op), fates);
            var more := shown + Shown(op);
            && Known(m'.facts, more)
            && SlotKnown(disk'.main, more) && SlotKnown(disk'.backup, more) && SlotKnown(disk'.pending, more)
  {
    hide Known, SlotKnown, Next, Saves, ValidOp, SaveSteps, Shown;
    var next, more := Next(m, op), shown + Shown(op);
    NextIsKnown(m, op, shown);
    KnownLater(m.facts, shown, more);
    var later := if Saves(m, op) then SaveSteps(disk, next, fates).0 else disk;
    SlotsComeFromSaves(disk, next, fates);
    assert From(disk.main, disk, next) && From(disk.backup, disk, next) && From(disk.pending, disk, next);
    SavedSlotIsKnown(later.main, disk, next, shown, more);
    SavedSlotIsKnown(later.backup, disk, next, shown, more);
    SavedSlotIsKnown(later.pending, disk, next, shown, more);
  }

  lemma StartIsKnown(disk: Slots<Memory>, rereads: ReadFates, shown: set<nat>)
    requires SlotKnown(disk.main, shown) && SlotKnown(disk.backup, shown)
    ensures StartedFrom(disk, rereads).Some? ==> Known(StartedFrom(disk, rereads).value.facts, shown)
  {
  }

  lemma EmptyIsInOrder()
    ensures AllKnown(EMPTY, {}) && WorldInStep(EMPTY)
  {
  }

  /** Over every run, with any errors, crashes and restarts, and any faults of the reads at a restart: every fact
      is sound and has its own key, the hot tier is within its capacity, and all evidence is a user message that
      was shown; in memory and in every whole file. */
  lemma {:induction false} EveryRunIsSound(actions: seq<Action>, n: nat)
    requires ValidOps(actions) && n <= |actions|
    ensures AllKnown(ActAll(EMPTY, actions, n), ShownTo(actions, n))
  {
    hide AllKnown, Act, ShownBy, ValidAction;
    if n == 0 {
      EmptyIsInOrder();
    } else {
      EveryRunIsSound(actions, n - 1);
      ActIsKnown(ActAll(EMPTY, actions, n - 1), actions[n - 1], ShownTo(actions, n - 1));
    }
  }

  /** This action is an operation that passes over the tiers and succeeds. */
  predicate PassSucceeds(w: World, a: Action) {
    && a.Operate? && w.memory.Some? && PassesAt(w.memory.value, a.op).Some?
    && var m := w.memory.value;
       Commit(m, w.disk, Next(m, a.op), Saves(m, a.op), a.fates).2 == Saved
  }

  /** Over every run: whenever an operation that passes over the tiers succeeds, the hot facts are the most
      recently seen of all mature cached facts. */
  lemma EveryPassLeavesTheTopHot(actions: seq<Action>, n: nat)
    requires ValidOps(actions) && n < |actions| && PassSucceeds(ActAll(EMPTY, actions, n), actions[n])
    ensures var (before, after) := (ActAll(EMPTY, actions, n), ActAll(EMPTY, actions, n + 1));
            && after.memory.Some?
            && TopOfCache(after.memory.value.facts, PassesAt(before.memory.value, actions[n].op).value)
  {
    hide Next, Saves, PassesAt, TopOfCache, Tidy, ValidOp, SlotKnown;
    var m, op := ActAll(EMPTY, actions, n).memory.value, actions[n].op;
    EveryRunIsSound(actions, n);
    assert ValidAction(actions[n]);
    OpIsTidy(m, op);
    if !Saves(m, op) {
      NothingToSave(m, op);
    }
  }

  /** Over every run: whenever an `apply` with something to apply succeeds, its batch is remembered. */
  lemma EveryBatchIsRemembered(actions: seq<Action>, n: nat)
    requires ValidOps(actions) && n < |actions| && PassSucceeds(ActAll(EMPTY, actions, n), actions[n])
    requires actions[n].op.Apply?
    ensures var (before, after, op) := (ActAll(EMPTY, actions, n), ActAll(EMPTY, actions, n + 1), actions[n].op);
            && before.memory.Some? && after.memory.Some?
            && Remembers(before.memory.value, after.memory.value, op.room, op.events, op.items, op.env)
  {
    hide Remembers, Tidy, SlotKnown, SaveSteps, ValidEnv, SoundFacts, Applied;
    var w, op := ActAll(EMPTY, actions, n), actions[n].op;
    SoundWhileRunning(actions, n);
    assert ValidAction(actions[n]);
    MayRemember(w.memory.value, op.room, op.events, op.items, op.env);
  }

  /** The action meets neither the one fault of a save nor the one fault of a start. */
  predicate IsFaultless(w: World, a: Action) {
    match a
    case Restart(rereads) => !MissesMemory(w.disk, rereads)
    case Operate(op, fates) => w.memory.Some? ==> !Faulty(w.memory.value, w.disk, op, fates)
  }

  predicate Faultless(actions: seq<Action>, n: nat)
    requires n <= |actions|
  {
    forall i :: 0 <= i < n ==> IsFaultless(ActAll(EMPTY, actions, i), actions[i])
  }

  /** The program, while it runs, has in memory what the disk holds. */
  predicate WorldInStep(w: World) {
    Clean(w.disk) && (w.memory.Some? ==> w.memory.value == Reopened(w.disk))
  }

  lemma ActKeeps(w: World, a: Action)
    requires WorldInStep(w) && ValidAction(a) && IsFaultless(w, a)
    requires w.memory.Some? ==> SoundFacts(w.memory.value.facts)
    ensures WorldInStep(Act(w, a))
    ensures Grows(Reopened(w.disk).facts, Reopened(Act(w, a).disk).facts, ShownBy(w, a))
  {
    hide Next, Saves, SoundFacts, Grows, ValidOp, Faulty, MissesMemory, StartedFrom, Shown;
    GrowsReflexive(Reopened(w.disk).facts, ShownBy(w, a));
    match a
    case Restart(rereads) => StartsFromDiskExactly(w.disk, rereads);
    case Operate(op, fates) =>
      if w.memory.Some? {
        CommitKeeps(w.memory.value, w.disk, op, fates);
        OpGrows(w.memory.value, op);
      }
  }

  lemma SoundWhileRunning(actions: seq<Action>, n: nat)
    requires ValidOps(actions) && n <= |actions|
    ensures var w := ActAll(EMPTY, actions, n); w.memory.Some? ==> SoundFacts(w.memory.value.facts)
  {
    hide SoundFacts, SlotKnown, Act, ShownTo, ValidAction;
    EveryRunIsSound(actions, n);
  }

  lemma {:induction false} FaultlessRunsKeepInStep(actions: seq<Action>, n: nat)
    requires ValidOps(actions) && n <= |actions| && Faultless(actions, n)
    ensures WorldInStep(ActAll(EMPTY, actions, n))
  {
    hide Act, ValidAction, IsFaultless, WorldInStep, SoundFacts;
    if n == 0 {
      EmptyIsInOrder();
    } else {
      FaultlessRunsKeepInStep(actions, n - 1);
      SoundWhileRunning(actions, n - 1);
      ActKeeps(ActAll(EMPTY, actions, n - 1), actions[n - 1]);
    }
  }

  /** As long as no save and no start has met its one fault: the program has in memory what the disk holds, after
      every operation and every restart, and between any two moments no fact and no piece of evidence is lost. */
  lemma {:induction false} FaultlessRunsLoseNothing(actions: seq<Action>, i: nat, n: nat)
    requires ValidOps(actions) && i <= n <= |actions| && Faultless(actions, n)
    ensures var earlier, now := ActAll(EMPTY, actions, i), ActAll(EMPTY, actions, n);
            WorldInStep(now) && Grows(Reopened(earlier.disk).facts, Reopened(now.disk).facts, ShownTo(actions, n))
  {
    hide Clean, Reopened, Grows, Act, ValidAction, IsFaultless, WorldInStep, ShownBy, SoundFacts;
    FaultlessRunsKeepInStep(actions, n);
    var now := ActAll(EMPTY, actions, n);
    GrowsReflexive(Reopened(now.disk).facts, ShownTo(actions, n));
    if i < n {
      FaultlessRunsLoseNothing(actions, i, n - 1);
      var before := ActAll(EMPTY, actions, n - 1);
      SoundWhileRunning(actions, n - 1);
      ActKeeps(before, actions[n - 1]);
      GrowsTransitive(Reopened(ActAll(EMPTY, actions, i).disk).facts, Reopened(before.disk).facts,
                      Reopened(now.disk).facts,
                      ShownTo(actions, n - 1), ShownBy(before, actions[n - 1]), ShownTo(actions, n));
    }
  }

  /** A start does miss a memory: a save dies when it has moved the main file away, the probe for the backup fails
      at the next start, and the program begins empty although no save met its fault. Its next save replaces
      what was there. */
  lemma MissedMemoryExample()
    ensures var ok := Fates(Do, Do, Do, Do, Do, Do, Do, Do, Do, Do, Do);
            var dies := ok.(promote := Die);
            var actions := [Operate(SetEnabled(true), ok), Operate(SetEnabled(true), dies),
                            Restart(ReadFates(Do, Fail, Do)), Operate(SetEnabled(false), ok)];
            var w, final := ActAll(EMPTY, actions, 3), ActAll(EMPTY, actions, 4);
            && ValidOps(actions) && Faultless(actions, 2)
            && w.memory == Some(DEFAULT) && Current(w.disk) == Some(Memory(true, [], map[], 1))
            && Current(final.disk) == Some(Memory(false, [], map[], 1))
  {
    var ok := Fates(Do, Do, Do, Do, Do, Do, Do, Do, Do, Do, Do);
    var dies := ok.(promote := Die);
    var actions := [Operate(SetEnabled(true), ok), Operate(SetEnabled(true), dies),
                    Restart(ReadFates(Do, Fail, Do)), Operate(SetEnabled(false), ok)];
    var one, two := Memory(true, [], map[], 1), Memory(true, [], map[], 2);
    var saved := World(Some(one), Slots(Present(Whole(one)), Absent, Absent));
    var dead := World(None, Slots(Absent, Present(Whole(one)), Present(Whole(two))));
    assert ActAll(EMPTY, actions, 0) == EMPTY;
    assert ActAll(EMPTY, actions, 1) == saved;
    assert ActAll(EMPTY, actions, 2) == Act(saved, actions[1]) == dead;
    assert ActAll(EMPTY, actions, 3) == Act(dead, actions[2]);
    assert ActAll(EMPTY, actions, 4) == Act(ActAll(EMPTY, actions, 3), actions[3]);
  }

  // ---------- the manager itself ----------

  /** Merge the items one after the other into a copy of the facts. */
  method MergeAll(start: seq<Fact>, items: seq<Extracted>, allowed: set<nat>, events: seq<Event>, env: Env)
    returns (facts: seq<Fact>)
    ensures facts == MergedAll(start, items, |items|, allowed, events, env)
  {
    hide Merged;
    facts := start;
    for k := 0 to |items|
      invariant facts == MergedAll(start, items, k, allowed, events, env)
    {
      facts := Merge(facts, k, items[k], allowed, events, env);
    }
  }

  /** Merge one item: into the fact with its key, or as a new fact. */
  method Merge(start: seq<Fact>, k: nat, item: Extracted, allowed: set<nat>, events: seq<Event>, env: Env)
    returns (facts: seq<Fact>)
    ensures facts == Merged(start, k, item, allowed, events, env)
  {
    hide Absorbed, Fresh, Acceptable;
    facts := start;
    var key, text := env.lower(Text.Trim(item.key)), Text.Trim(item.text);
    if !Acceptable(key, text) {
      return;
    }
    var evidence := Evidenced(item, allowed);
    var ids := env.order(k, evidence);
    if ids == [] {
      return;
    }
    var index := IndexOf(facts, key);
    if index.None? {
      facts := facts + [Fresh(key, text, ids, events, env.now)];
      index := Some(|facts| - 1);
    }
    var fact := Absorb(facts[index.value], text, ids, events, env.now);
    facts := facts[index.value := fact];
  }

  method Absorb(start: Fact, text: string, ids: seq<nat>, events: seq<Event>, now: nat) returns (fact: Fact)
    requires ids != []
    ensures fact == Absorbed(start, text, ids, events, now)
  {
    var first, last := MinTime(ids, events, now), MaxTime(ids, events, now);
    fact := start.(text := text,
                   firstSeen := if first < start.firstSeen then first else start.firstSeen,
                   lastSeen := if last > start.lastSeen then last else start.lastSeen);
    ghost var seen := fact;
    for n := 0 to |ids|
      invariant fact == Counted(seen, ids, n, events, now)
    {
      if ids[n] !in fact.sources {
        fact := fact.(sources := fact.sources + [ids[n]],
                      recent := fact.recent + [TimeOf(events, ids[n], now)]);
      }
    }
    fact := fact.(recent := Within(fact.recent, now));
    if fact.cacheSince.None? && |fact.recent| >= 3 {
      fact := fact.(cacheSince := Some(now));
    }
  }

  method ApplyToCopy(m: Memory, room: nat, events: seq<Event>, items: seq<Extracted>, env: Env) returns (next: Memory)
    requires events != [] && m.enabled
    ensures next == Applied(m, room, events, items, env)
  {
    var facts := MergeAll(m.facts, items, Allowed(events, Cursor(m, room)), events, env);
    next := m.(facts := facts, cursors := m.cursors[room := MaxId(events)], revision := m.revision + 1);
    var changed;
    next, changed := Rebalance(next, env.now);
  }

  datatype Result<+T> = Ok(value: T) | Err | Died

  lemma MayRemember(m: Memory, room: nat, events: seq<Event>, items: seq<Extracted>, env: Env)
    requires m.enabled && events != []
    ensures SoundFacts(m.facts) && ValidEnv(env) ==>
              Remembers(m, Applied(m, room, events, items, env), room, events, items, env)
  {
    hide Applied, SoundFacts, ValidEnv, Remembers;
    if SoundFacts(m.facts) && ValidEnv(env) {
      AppliedRemembers(m, room, events, items, env);
    }
  }

  class MemoryManager {
    var state: Memory
    const file: SnapshotFile<Memory>

    /** Memory equals disk. */
    ghost predicate Valid()
      reads this, file
    {
      Clean(file.State()) && state == Reopened(file.State())
    }

    constructor (file: SnapshotFile<Memory>, state: Memory)
      ensures this.file == file && this.state == state
    {
      this.file, this.state := file, state;
    }

    /** Store `next` through the file, then in memory. */
    method Store(next: Memory, f: Fates) returns (outcome: Outcome)
      modifies this`state, file
      ensures (state, file.State(), outcome) == Commit(old(state), old(file.State()), next, true, f)
    {
      outcome := file.Save(next, f);
      if outcome == Saved {
        state := next;
      }
    }

    method SetEnabled(enabled: bool, f: Fates) returns (r: Result<Status>)
      requires Clean(file.State())
      modifies this`state, file
      ensures Clean(file.State())
      ensures old(Valid() && !Faulty(state, file.State(), Op.SetEnabled(enabled), f)) ==> r.Died? || Valid()
      ensures r.Ok? ==> state == Next(old(state), Op.SetEnabled(enabled)) && r.value == StatusOf(state)
      ensures r.Ok? ==> (state.enabled, state.facts, state.cursors) == (enabled, old(state.facts), old(state.cursors))
                        && state.revision == old(state.revision) + 1 && r.value.enabled == enabled
      ensures r.Err? ==> state == old(state)
      ensures r.Died? && old(Valid() && !Faulty(state, file.State(), Op.SetEnabled(enabled), f)) ==>
                Clean(file.State()) && Reopened(file.State()) in {old(state), Next(old(state), Op.SetEnabled(enabled))}
    {
      hide Current, Clean, Reopened, StaleRollback, SaveSteps;
      CommitKeeps(state, file.State(), Op.SetEnabled(enabled), f);
      var next := state.(enabled := enabled, revision := state.revision + 1);
      var outcome := Store(next, f);
      match outcome
      case Saved => return Ok(StatusOf(state));
      case Refused => return Err;
      case Crashed => return Died;
    }

    /** The hot facts, after a pass over the tiers. */
    method ReadHot(now: nat, f: Fates) returns (r: Result<(nat, seq<string>)>)
      requires Clean(file.State())
      modifies this`state, file
      ensures Clean(file.State())
      ensures old(Valid() && !Faulty(state, file.State(), Op.ReadHot(now), f)) ==> r.Died? || Valid()
      ensures r.Ok? ==> state == Next(old(state), Op.ReadHot(now))
      ensures r.Ok? && !old(state.enabled) ==> state == old(state)
      ensures r.Ok? && old(state.enabled) ==>
                && (state.enabled, state.facts, state.cursors)
                   == (true, Balanced(old(state.facts), now), old(state.cursors))
                && state.revision == old(state.revision) + if state.facts == old(state.facts) then 0 else 1
      ensures r.Ok? ==> r.value == (state.revision, if state.enabled then HotTexts(state.facts) else [])
      ensures r.Err? ==> state == old(state)
      ensures r.Died? && old(Valid() && !Faulty(state, file.State(), Op.ReadHot(now), f)) ==>
                Clean(file.State()) && Reopened(file.State()) in {old(state), Next(old(state), Op.ReadHot(now))}
    {
      hide Current, Clean, Reopened, StaleRollback, SaveSteps;
      CommitKeeps(state, file.State(), Op.ReadHot(now), f);
      if !state.enabled {
        return Ok((state.revision, []));
      }
      var next, changed := Rebalance(state, now);
      if changed {
        var outcome := Store(next, f);
        if outcome != Saved {
          return if outcome == Crashed then Died else Err;
        }
      }
      return Ok((state.revision, HotTexts(state.facts)));
    }

    method Apply(room: nat, events: seq<Event>, items: seq<Extracted>, env: Env, f: Fates) returns (r: Result<()>)
      requires Clean(file.State())
      modifies this`state, file
      ensures Clean(file.State())
      ensures old(Valid() && !Faulty(state, file.State(), Op.Apply(room, events, items, env), f)) ==> r.Died? || Valid()
      ensures r.Ok? ==> state == Next(old(state), Op.Apply(room, events, items, env))
      ensures r.Ok? && (events == [] || !old(state.enabled)) ==> state == old(state)
      ensures r.Ok? && events != [] && old(state.enabled && SoundFacts(state.facts)) && ValidEnv(env) ==>
                Remembers(old(state), state, room, events, items, env)
      ensures r.Err? ==> state == old(state)
      ensures r.Died? && old(Valid() && !Faulty(state, file.State(), Op.Apply(room, events, items, env), f)) ==>
                && Clean(file.State())
                && Reopened(file.State()) in {old(state), Next(old(state), Op.Apply(room, events, items, env))}
    {
      hide Current, Clean, Reopened, StaleRollback, SaveSteps, SoundFacts, ValidEnv, Remembers;
      CommitKeeps(state, file.State(), Op.Apply(room, events, items, env), f);
      if events == [] || !state.enabled {
        return Ok(());
      }
      MayRemember(state, room, events, items, env);
      var next := ApplyToCopy(state, room, events, items, env);
      var outcome := Store(next, f);
      match outcome
      case Saved => return Ok(());
      case Refused => return Err;
      case Crashed => return Died;
    }
  }

  /** A start of the program; none when the file cannot be read. */
  method OpenManager(file: SnapshotFile<Memory>, rereads: ReadFates) returns (manager: MemoryManager?)
    requires Clean(file.State())
    ensures manager == null <==> StartedFrom(file.State(), rereads).None?
    ensures manager != null ==> fresh(manager) && manager.file == file
    ensures manager != null ==> Some(manager.state) == StartedFrom(file.State(), rereads)
    ensures manager != null ==> (manager.Valid() <==> !MissesMemory(file.State(), rereads))
  {
    StartsFromDiskExactly(file.State(), rereads);
    match Open(file.State(), rereads)
    case ReadError => manager := null;
    case Value(found) =>
      manager := new MemoryManager(file, if found.Some? then found.value else DEFAULT);
  }
}
