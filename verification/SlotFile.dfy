/** The three-slot snapshot file that chat history, long-term memory and the
    conversation map all use: a main file, a `.bak` file and a `.tmp` file.
    A save may meet an I/O error at any file operation, and the process may die
    between any two of them. */
module SlotFile {
  import opened Options

  /** Bytes on disk: a complete encoding of a value, or anything that does not decode. */
  datatype Content<+V> = Torn | Whole(value: V)

  datatype Slot<+V> = Absent | Present(content: Content<V>)

  datatype Slots<+V> = Slots(main: Slot<V>, backup: Slot<V>, pending: Slot<V>)

  /** What becomes of one file operation. `Die` means that the process ends just
      before the operation takes effect. A `Fail`ing `exists` probe answers "no". */
  datatype Fate = Do | Fail | Die

  /** One fate for each operation of a save, in program order; `finish` is the
      moment between the last file operation and the return. */
  datatype Fates = Fates(create: Fate, write: Fate, sync: Fate,
                         mainProbe: Fate, backupProbe: Fate, remove: Fate, demote: Fate,
                         promote: Fate, rollbackProbe: Fate, rollback: Fate, finish: Fate)

  datatype Outcome = Saved | Refused | Crashed

  function Stopped(fate: Fate): Outcome {
    if fate == Die then Crashed else Refused
  }

  /** The value a reader is meant to see: the main file, or the backup when there is no main file. */
  function Current<V>(s: Slots<V>): Option<V> {
    match (s.main, s.backup)
    case (Present(Whole(v)), _) => Some(v)
    case (Absent, Present(Whole(v))) => Some(v)
    case _ => None
  }

  /** Neither of the two slots that readers look at holds a partial file. */
  predicate Clean<V>(s: Slots<V>) {
    s.main != Present(Torn) && s.backup != Present(Torn)
  }

  // ---------- saving ----------

  /** A save of `v`, operation by operation. */
  function SaveSteps<V>(s: Slots<V>, v: V, f: Fates): (Slots<V>, Outcome) {
    if f.create != Do then (s, Stopped(f.create)) else
    var created := s.(pending := Present(Torn));
    if f.write != Do then (created, Stopped(f.write)) else
    if f.sync != Do then (created, Stopped(f.sync)) else
    var synced := s.(pending := Present(Whole(v)));
    if f.mainProbe == Die then (synced, Crashed) else
    if synced.main.Absent? || f.mainProbe == Fail then PromoteSteps(synced, f) else
    if f.backupProbe == Die then (synced, Crashed) else
    var drop := synced.backup.Present? && f.backupProbe == Do;
    if drop && f.remove != Do then (synced, Stopped(f.remove)) else
    var single := if drop then synced.(backup := Absent) else synced;
    if f.demote != Do then (single, Stopped(f.demote)) else
    PromoteSteps(single.(main := Absent, backup := single.main), f)
  }

  /** The last rename of a save, and the way back when it fails. */
  function PromoteSteps<V>(s: Slots<V>, f: Fates): (Slots<V>, Outcome) {
    if f.promote == Die then (s, Crashed) else
    if f.promote == Do then
      (s.(main := s.pending, pending := Absent), if f.finish == Die then Crashed else Saved)
    else if f.rollbackProbe == Die then (s, Crashed)
    else if s.backup.Present? && f.rollbackProbe == Do then
      if f.rollback == Die then (s, Crashed) else
      (if f.rollback == Do then s.(main := s.backup, backup := Absent) else s, Stopped(f.finish))
    else (s, Stopped(f.finish))
  }

  /** What a caller needs of a save: success installs the value, an error changes nothing
      that a reader sees, and a crash leaves either the old value or the new one. */
  predicate Atomic<V(==)>(before: Option<V>, v: V, after: Option<V>, outcome: Outcome) {
    match outcome
    case Saved => after == Some(v)
    case Refused => after == before
    case Crashed => after == before || after == Some(v)
  }

  /** The one way in which a save goes wrong. `Path::exists` answers "no" when it meets an
      I/O error, so a save can skip the demotion of a main file that is there; when the
      promotion then fails as well, the rollback renames the older backup over it. */
  predicate StaleRollback<V(==)>(s: Slots<V>, v: V, f: Fates) {
    && f.create == f.write == f.sync == Do
    && f.mainProbe == Fail && s.main.Present?
    && f.promote == Fail && f.rollbackProbe == f.rollback == Do
    && s.backup.Present? && s.backup != s.main
    && !(f.finish == Die && s.backup == Present(Whole(v)))
  }

  /** A save is atomic, whatever fails and wherever the process dies, if and only if it does not roll
      a stale backup over a main file that its probe missed. */
  lemma SaveIsAtomicExactly<V>(s: Slots<V>, v: V, f: Fates)
    requires Clean(s)
    ensures Clean(SaveSteps(s, v, f).0)
    ensures Atomic(Current(s), v, Current(SaveSteps(s, v, f).0), SaveSteps(s, v, f).1) <==> !StaleRollback(s, v, f)
  {
    var pending := Present(Whole(v));
    assert SaveSteps(s, v, f).1.Saved? ==> SaveSteps(s, v, f).0.main == pending;
  }

  /** The stale rollback does happen: a save that returns an error brings back an older snapshot. */
  lemma StaleRollbackExample()
    ensures var s := Slots(Present(Whole(2)), Present(Whole(1)), Absent);
            var f := Fates(Do, Do, Do, Fail, Do, Do, Do, Fail, Do, Do, Do);
            && SaveSteps(s, 3, f).1 == Refused
            && Current(s) == Some(2) && Current(SaveSteps(s, 3, f).0) == Some(1)
  {
    var s := Slots(Present(Whole(2)), Present(Whole(1)), Absent);
    var f := Fates(Do, Do, Do, Fail, Do, Do, Do, Fail, Do, Do, Do);
    assert SaveSteps(s, 3, f) == PromoteSteps(s.(pending := Present(Whole(3))), f);
  }

  // ---------- loading ----------

  datatype Loaded<+V> = Value(value: Option<V>) | ReadError

  /** Fates of the reads of a load. Only `Fail` matters: a load changes no file. */
  datatype ReadFates = ReadFates(main: Fate, probe: Fate, backup: Fate)

  function ReadBackup<V>(s: Slots<V>, r: ReadFates): Loaded<V> {
    if r.backup != Do then ReadError else
    match s.backup
    case Absent => Value(None)
    case Present(Torn) => ReadError
    case Present(Whole(v)) => Value(Some(v))
  }

  /** Chat history and the conversation map: try the main file, then the backup. */
  function Load<V>(s: Slots<V>, r: ReadFates): Loaded<V> {
    if r.main != Do then ReadError else
    match s.main
    case Absent => ReadBackup(s, r)
    case Present(Torn) => if s.backup.Present? && r.probe == Do then ReadBackup(s, r) else ReadError
    case Present(Whole(v)) => Value(Some(v))
  }

  /** Long-term memory: the backup is read only when `exists` says that it is there. */
  function Open<V>(s: Slots<V>, r: ReadFates): Loaded<V> {
    if r.main != Do then ReadError else
    match s.main
    case Absent => if s.backup.Present? && r.probe == Do then ReadBackup(s, r) else Value(None)
    case Present(Torn) => if s.backup.Present? && r.probe == Do then ReadBackup(s, r) else ReadError
    case Present(Whole(v)) => Value(Some(v))
  }

  /** A save succeeds exactly when no file operation that it comes to fails, and the process lives. */
  lemma SavesSucceedExactly<V>(s: Slots<V>, v: V, f: Fates)
    ensures SaveSteps(s, v, f).1 == Saved <==>
              && f.create == f.write == f.sync == Do && f.mainProbe != Die
              && (s.main.Present? && f.mainProbe == Do ==>
                    && f.backupProbe != Die && f.demote == Do
                    && (s.backup.Present? && f.backupProbe == Do ==> f.remove == Do))
              && f.promote == Do && f.finish != Die
  {
  }

  /** A save brings nothing into a slot but what was in a slot before, a partial file, or the new value. */
  predicate From<V(==)>(slot: Slot<V>, s: Slots<V>, v: V) {
    slot in {Absent, Present(Torn), Present(Whole(v)), s.main, s.backup, s.pending}
  }

  lemma SlotsComeFromSaves<V>(s: Slots<V>, v: V, f: Fates)
    ensures var later := SaveSteps(s, v, f).0;
              From(later.main, s, v) && From(later.backup, s, v) && From(later.pending, s, v)
  {
  }

  /** The one way in which opening goes wrong: there is only a backup, and the probe for it fails. */
  predicate MissesBackup<V>(s: Slots<V>, r: ReadFates) {
    r.main == Do && s.main.Absent? && s.backup.Present? && r.probe != Do
  }

  /** A load reports an error or the current value, never an older one and never a partial one;
      opening the memory file can also miss a backup, exactly when the probe for it fails. */
  lemma ReadersSeeTheCurrentValue<V>(s: Slots<V>, r: ReadFates)
    requires Clean(s)
    ensures Load(s, r) == ReadError || Load(s, r) == Value(Current(s))
    ensures r == ReadFates(Do, Do, Do) ==> Load(s, r) == Open(s, r) == Value(Current(s))
    ensures (Open(s, r) == ReadError || Open(s, r) == Value(Current(s)))
            <==> !MissesBackup(s, r)
  {
  }

  // ---------- whole runs ----------

  datatype Attempt<+V> = Attempt(value: V, fates: Fates)

  /** The slots after each save of a run; element `i` is the disk before save `i`. A crashed save is
      followed by a restart on the disk it left. */
  function Run<V>(s: Slots<V>, saves: seq<Attempt<V>>): (disks: seq<Slots<V>>)
    ensures |disks| == |saves| + 1 && disks[0] == s
    ensures forall i :: 0 <= i < |saves| ==> disks[i + 1] == SaveSteps(disks[i], saves[i].value, saves[i].fates).0
    decreases |saves|
  {
    if saves == [] then [s] else
    var rest := Run(SaveSteps(s, saves[0].value, saves[0].fates).0, saves[1..]);
    [s] + rest
  }

  /** Refinement: over any run of saves, errors, crashes and restarts from an empty directory, the files
      behave as a register. A load at any point gives an error or the register's content, never a partial file;
      so does opening the memory file if and only if it does not miss a backup; and save `i` moves the register
      as its outcome says if and only if it does not roll a stale backup over a main file that its probe missed,
      whatever happened before. */
  lemma {:induction false} RunsRefineAnAtomicRegister<V>(saves: seq<Attempt<V>>, r: ReadFates, i: nat)
    requires i <= |saves|
    ensures var disks := Run(Slots(Absent, Absent, Absent), saves);
            && Clean(disks[i])
            && Current(disks[0]) == None
            && (Load(disks[i], r) == ReadError || Load(disks[i], r) == Value(Current(disks[i])))
            && ((Open(disks[i], r) == ReadError || Open(disks[i], r) == Value(Current(disks[i])))
                <==> !MissesBackup(disks[i], r))
            && (i < |saves| ==>
                  (Atomic(Current(disks[i]), saves[i].value, Current(disks[i + 1]),
                          SaveSteps(disks[i], saves[i].value, saves[i].fates).1)
                   <==> !StaleRollback(disks[i], saves[i].value, saves[i].fates)))
  {
    var disks := Run(Slots(Absent, Absent, Absent), saves);
    if i > 0 {
      RunsRefineAnAtomicRegister(saves, r, i - 1);
      SaveIsAtomicExactly(disks[i - 1], saves[i - 1].value, saves[i - 1].fates);
    }
    if i < |saves| {
      SaveIsAtomicExactly(disks[i], saves[i].value, saves[i].fates);
    }
    ReadersSeeTheCurrentValue(disks[i], r);
  }

  // ---------- the file itself ----------

  /** One snapshot file, changed in place by `Save`. */
  class SnapshotFile<V(==)> {
    var main: Slot<V>
    var backup: Slot<V>
    var pending: Slot<V>

    constructor ()
      ensures State() == Slots(Absent, Absent, Absent)
    {
      main, backup, pending := Absent, Absent, Absent;
    }

    function State(): Slots<V>
      reads this
    {
      Slots(main, backup, pending)
    }

    method Save(v: V, f: Fates) returns (outcome: Outcome)
      modifies this
      ensures (State(), outcome) == SaveSteps(old(State()), v, f)
      ensures old(Clean(State())) ==> Clean(State())
      ensures outcome == Saved ==> Current(State()) == Some(v)
      ensures old(Clean(State())) && !StaleRollback(old(State()), v, f) ==>
                Atomic(old(Current(State())), v, Current(State()), outcome)
    {
      ghost var before := State();
      SaveAnyState(before, v, f);
      if f.create != Do { return Stopped(f.create); }
      pending := Present(Torn);
      if f.write != Do { return Stopped(f.write); }
      if f.sync != Do { return Stopped(f.sync); }
      pending := Present(Whole(v));
      if f.mainProbe == Die { return Crashed; }
      if main.Present? && f.mainProbe == Do {
        if f.backupProbe == Die { return Crashed; }
        if backup.Present? && f.backupProbe == Do {
          if f.remove != Do { return Stopped(f.remove); }
          backup := Absent;
        }
        if f.demote != Do { return Stopped(f.demote); }
        main, backup := Absent, main;
      }
      outcome := Promote(f);
    }

    method Promote(f: Fates) returns (outcome: Outcome)
      modifies this
      ensures (State(), outcome) == PromoteSteps(old(State()), f)
    {
      if f.promote == Die { return Crashed; }
      if f.promote == Do {
        main, pending := pending, Absent;
        return if f.finish == Die then Crashed else Saved;
      }
      if f.rollbackProbe == Die { return Crashed; }
      if backup.Present? && f.rollbackProbe == Do {
        if f.rollback == Die { return Crashed; }
        if f.rollback == Do {
          main, backup := backup, Absent;
        }
      }
      return Stopped(f.finish);
    }
  }

  lemma SaveAnyState<V>(s: Slots<V>, v: V, f: Fates)
    ensures Clean(s) ==> Clean(SaveSteps(s, v, f).0)
    ensures SaveSteps(s, v, f).1 == Saved ==> Current(SaveSteps(s, v, f).0) == Some(v)
    ensures Clean(s) && !StaleRollback(s, v, f) ==>
              Atomic(Current(s), v, Current(SaveSteps(s, v, f).0), SaveSteps(s, v, f).1)
  {
    if Clean(s) {
      SaveIsAtomicExactly(s, v, f);
    }
  }
}
