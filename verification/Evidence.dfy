/** How extracted facts are merged into long-term memory, and what every run of merges keeps. */
module Evidence {
  import opened Options
  import opened Memory
  import Text

  /** The part of a context message that memory looks at. */
  datatype Event = Event(id: nat, role: string, createdAt: nat)

  datatype Extracted = Extracted(key: string, text: string, evidenceIds: seq<nat>)

  /** What a merge takes from its surroundings: the clock, the lower-case tables, and the order in which
      the hash set of item `k` happens to be walked. */
  datatype Env = Env(now: nat, lower: string -> string, order: (nat, set<nat>) -> seq<nat>)

  predicate Distinct<T(==)>(s: seq<T>) {
    forall a, b :: 0 <= a < b < |s| ==> s[a] != s[b]
  }

  ghost predicate ValidEnv(env: Env) {
    forall k, s :: Distinct(env.order(k, s)) && forall id :: id in env.order(k, s) <==> id in s
  }

  function Cursor(m: Memory, room: nat): nat {
    if room in m.cursors then m.cursors[room] else 0
  }

  function After(events: seq<Event>, cursor: nat): (r: seq<Event>)
    ensures forall e :: e in r <==> e in events && e.id > cursor
    ensures (forall e :: e in events ==> e.id <= cursor) ==> r == []
  {
    if events == [] then [] else
    (if events[0].id > cursor then [events[0]] else []) + After(events[1..], cursor)
  }

  function Unprocessed(m: Memory, room: nat, context: seq<Event>): seq<Event> {
    if m.enabled then After(context, Cursor(m, room)) else []
  }

  function Allowed(events: seq<Event>, cursor: nat): set<nat> {
    set e | e in events && e.id > cursor && e.role == "user" :: e.id
  }

  function MaxId(events: seq<Event>): (max: nat)
    requires events != []
    ensures forall e :: e in events ==> e.id <= max
    ensures exists e :: e in events && e.id == max
  {
    if |events| == 1 then assert events[0] in events; events[0].id else
    var rest := MaxId(events[1..]);
    if events[0].id > rest then assert events[0] in events; events[0].id else rest
  }

  /** The time of the first event with this id; a missing time stamp counts as now. */
  function TimeOf(events: seq<Event>, id: nat, now: nat): nat {
    if events == [] then now else
    if events[0].id == id then (if events[0].createdAt == 0 then now else events[0].createdAt)
    else TimeOf(events[1..], id, now)
  }

  function MinTime(ids: seq<nat>, events: seq<Event>, now: nat): (t: nat)
    requires ids != []
    ensures forall id :: id in ids ==> t <= TimeOf(events, id, now)
    ensures exists id :: id in ids && t == TimeOf(events, id, now)
  {
    assert ids[0] in ids;
    var first := TimeOf(events, ids[0], now);
    if |ids| == 1 then first else
    var rest := MinTime(ids[1..], events, now);
    if first < rest then first else rest
  }

  function MaxTime(ids: seq<nat>, events: seq<Event>, now: nat): (t: nat)
    requires ids != []
    ensures forall id :: id in ids ==> t >= TimeOf(events, id, now)
    ensures exists id :: id in ids && t == TimeOf(events, id, now)
  {
    assert ids[0] in ids;
    var first := TimeOf(events, ids[0], now);
    if |ids| == 1 then first else
    var rest := MaxTime(ids[1..], events, now);
    if first > rest then first else rest
  }

  function IndexOf(facts: seq<Fact>, key: string): (i: Option<nat>)
    ensures i.Some? ==> i.value < |facts| && facts[i.value].key == key
    ensures i.None? ==> forall j :: 0 <= j < |facts| ==> facts[j].key != key
  {
    if facts == [] then None else
    if facts[0].key == key then Some(0) else
    match IndexOf(facts[1..], key)
    case None => None
    case Some(i) => Some(i + 1)
  }

  // ---------- merging one item ----------

  /** Count the first `n` ids, each at most once per fact. */
  function Counted(f: Fact, ids: seq<nat>, n: nat, events: seq<Event>, now: nat): Fact
    requires n <= |ids|
  {
    if n == 0 then f else
    var g := Counted(f, ids, n - 1, events, now);
    var id := ids[n - 1];
    if id in g.sources then g
    else g.(sources := g.sources + [id], recent := g.recent + [TimeOf(events, id, now)])
  }

  /** The fact with its new text, and its time span stretched over the new evidence. */
  function Stretched(f: Fact, text: string, ids: seq<nat>, events: seq<Event>, now: nat): Fact
    requires ids != []
  {
    var first, last := MinTime(ids, events, now), MaxTime(ids, events, now);
    f.(text := text,
       firstSeen := if first < f.firstSeen then first else f.firstSeen,
       lastSeen := if last > f.lastSeen then last else f.lastSeen)
  }

  function Absorbed(f: Fact, text: string, ids: seq<nat>, events: seq<Event>, now: nat): Fact
    requires ids != []
  {
    var counted := Counted(Stretched(f, text, ids, events, now), ids, |ids|, events, now);
    var kept := counted.(recent := Within(counted.recent, now));
    if kept.cacheSince.None? && |kept.recent| >= 3 then kept.(cacheSince := Some(now)) else kept
  }

  function Fresh(key: string, text: string, ids: seq<nat>, events: seq<Event>, now: nat): Fact
    requires ids != []
  {
    Fact(key, text, [], MinTime(ids, events, now), MaxTime(ids, events, now), [], None, None)
  }

  predicate Acceptable(key: string, text: string) {
    key != "" && Text.Utf8Length(key) <= 160 && text != "" && Text.Utf8Length(text) <= 500
  }

  function Evidenced(item: Extracted, allowed: set<nat>): set<nat> {
    set id | id in item.evidenceIds && id in allowed
  }

  function Merged(facts: seq<Fact>, k: nat, item: Extracted, allowed: set<nat>, events: seq<Event>,
                  env: Env): seq<Fact> {
    var key, text := env.lower(Text.Trim(item.key)), Text.Trim(item.text);
    var ids := env.order(k, Evidenced(item, allowed));
    if !Acceptable(key, text) || ids == [] then facts else
    match IndexOf(facts, key)
    case Some(i) => facts[i := Absorbed(facts[i], text, ids, events, env.now)]
    case None => facts + [Absorbed(Fresh(key, text, ids, events, env.now), text, ids, events, env.now)]
  }

  function MergedAll(facts: seq<Fact>, items: seq<Extracted>, n: nat,
                     allowed: set<nat>, events: seq<Event>, env: Env): seq<Fact>
    requires n <= |items|
  {
    if n == 0 then facts else
    Merged(MergedAll(facts, items, n - 1, allowed, events, env), n - 1, items[n - 1], allowed, events, env)
  }

  /** The memory that an `apply` tries to store. */
  function Applied(m: Memory, room: nat, events: seq<Event>, items: seq<Extracted>, env: Env): Memory {
    if events == [] || !m.enabled then m else
    var facts := MergedAll(m.facts, items, |items|, Allowed(events, Cursor(m, room)), events, env);
    Rebalanced(m.(facts := facts, cursors := m.cursors[room := MaxId(events)], revision := m.revision + 1), env.now)
  }

  // ---------- soundness of one fact ----------

  predicate Sound(f: Fact) {
    && Distinct(f.sources)
    && |f.recent| <= |f.sources|
    && f.firstSeen <= f.lastSeen
    && (forall t :: t in f.recent ==> t <= f.lastSeen)
    && (f.cacheSince.Some? ==> |f.sources| >= 3)
    && (Hot(f) ==> f.cacheSince.Some?)
  }

  predicate SoundFacts(facts: seq<Fact>) {
    && (forall i :: 0 <= i < |facts| ==> Sound(facts[i]))
    && (forall i, j :: 0 <= i < j < |facts| ==> facts[i].key != facts[j].key)
  }

  /** `g` is `f` later on: the same key, and no evidence forgotten. */
  predicate Continues(f: Fact, g: Fact) {
    g.key == f.key && f.sources <= g.sources && g.firstSeen <= f.firstSeen && f.lastSeen <= g.lastSeen
  }

  /** No fact is lost, moved or renamed, and only ids in `ids` are new evidence. */
  predicate Grows(facts: seq<Fact>, later: seq<Fact>, ids: set<nat>) {
    && |facts| <= |later|
    && (forall i :: 0 <= i < |facts| ==> Continues(facts[i], later[i]))
    && (forall i, id :: 0 <= i < |later| && id in later[i].sources ==>
          id in ids || (i < |facts| && id in facts[i].sources))
  }

  lemma {:induction false} CountedGrows(f: Fact, ids: seq<nat>, n: nat, events: seq<Event>, now: nat)
    requires n <= |ids| && Distinct(f.sources) && |f.recent| <= |f.sources|
    ensures var g := Counted(f, ids, n, events, now);
            && g == f.(sources := g.sources, recent := g.recent)
            && Distinct(g.sources) && |g.recent| <= |g.sources|
            && f.sources <= g.sources
            && (forall id :: id in g.sources <==> id in f.sources || id in ids[..n])
            && (forall t :: t in g.recent ==> t in f.recent || exists id :: id in ids && t == TimeOf(events, id, now))
  {
    if n > 0 {
      CountedGrows(f, ids, n - 1, events, now);
      assert ids[..n] == ids[..n - 1] + [ids[n - 1]] && ids[n - 1] in ids;
    }
  }

  lemma AbsorbedGrows(f: Fact, text: string, ids: seq<nat>, events: seq<Event>, now: nat)
    requires ids != [] && Sound(f)
    ensures var g := Absorbed(f, text, ids, events, now);
            && Sound(g) && Continues(f, g)
            && (forall id :: id in g.sources <==> id in f.sources || id in ids)
  {
    var first, last := MinTime(ids, events, now), MaxTime(ids, events, now);
    assert ids[0] in ids && first <= TimeOf(events, ids[0], now) <= last;
    CountedGrows(Stretched(f, text, ids, events, now), ids, |ids|, events, now);
    assert ids[..|ids|] == ids;
  }

  lemma FreshAbsorbed(key: string, text: string, ids: seq<nat>, events: seq<Event>, now: nat)
    requires ids != []
    ensures var g := Absorbed(Fresh(key, text, ids, events, now), text, ids, events, now);
            Sound(g) && g.key == key && forall id :: id in g.sources <==> id in ids
  {
    var created := Fresh(key, text, ids, events, now);
    assert ids[0] in ids;
    AbsorbedGrows(created, text, ids, events, now);
  }

  lemma ContinuesReflexive(facts: seq<Fact>)
    ensures forall f :: f in facts ==> Continues(f, f)
  {
  }

  lemma MergedGrows(facts: seq<Fact>, k: nat, item: Extracted, allowed: set<nat>, events: seq<Event>, env: Env)
    requires SoundFacts(facts) && ValidEnv(env)
    ensures SoundFacts(Merged(facts, k, item, allowed, events, env))
    ensures Grows(facts, Merged(facts, k, item, allowed, events, env), allowed)
  {
    hide Absorbed, MinTime, MaxTime, Continues;
    ContinuesReflexive(facts);
    var key, text := env.lower(Text.Trim(item.key)), Text.Trim(item.text);
    var evidence := Evidenced(item, allowed);
    var ids := env.order(k, evidence);
    assert forall id :: id in ids <==> id in evidence;
    if Acceptable(key, text) && ids != [] {
      match IndexOf(facts, key)
      case Some(i) =>
        AbsorbedGrows(facts[i], text, ids, events, env.now);
      case None =>
        FreshAbsorbed(key, text, ids, events, env.now);
    }
  }

  lemma GrowsReflexive(a: seq<Fact>, ids: set<nat>)
    ensures Grows(a, a, ids)
  {
  }

  lemma GrowsTransitive(a: seq<Fact>, b: seq<Fact>, c: seq<Fact>, x: set<nat>, y: set<nat>, ids: set<nat>)
    requires Grows(a, b, x) && Grows(b, c, y) && x <= ids && y <= ids
    ensures Grows(a, c, ids)
  {
    forall i | 0 <= i < |a|
      ensures Continues(a[i], c[i])
    {
      assert Continues(a[i], b[i]) && Continues(b[i], c[i]);
    }
  }

  lemma {:induction false} MergedAllGrows(facts: seq<Fact>, items: seq<Extracted>, n: nat,
                                          allowed: set<nat>, events: seq<Event>, env: Env)
    requires n <= |items| && SoundFacts(facts) && ValidEnv(env)
    ensures SoundFacts(MergedAll(facts, items, n, allowed, events, env))
    ensures Grows(facts, MergedAll(facts, items, n, allowed, events, env), allowed)
  {
    hide Merged;
    if n > 0 {
      MergedAllGrows(facts, items, n - 1, allowed, events, env);
      var before := MergedAll(facts, items, n - 1, allowed, events, env);
      MergedGrows(before, n - 1, items[n - 1], allowed, events, env);
      GrowsTransitive(facts, before, MergedAll(facts, items, n, allowed, events, env), allowed, allowed, allowed);
    }
  }

  lemma BalancedGrows(facts: seq<Fact>, now: nat)
    requires SoundFacts(facts)
    ensures SoundFacts(Balanced(facts, now))
    ensures Grows(facts, Balanced(facts, now), {})
  {
    var swept, r := SweptAll(facts, now), Balanced(facts, now);
    BalancedProgress(facts, now);
    forall i | 0 <= i < |facts|
      ensures Sound(r[i]) && Continues(facts[i], r[i]) && r[i].sources == facts[i].sources
    {
      assert SameButHot(r[i], swept[i]) && swept[i] == Swept(facts[i], now);
      assert Hot(r[i]) ==> Hot(swept[i]) || i in Candidates(swept, now);
    }
  }

  // ---------- runs ----------

  /** The operations that change long-term memory. */
  datatype Op =
    | Apply(room: nat, events: seq<Event>, items: seq<Extracted>, env: Env)
    | ReadHot(now: nat)
    | SetEnabled(enabled: bool)

  /** The memory that an operation tries to store. */
  function Next(m: Memory, op: Op): Memory {
    match op
    case Apply(room, events, items, env) => Applied(m, room, events, items, env)
    case ReadHot(now) => if m.enabled then Rebalanced(m, now) else m
    case SetEnabled(enabled) => m.(enabled := enabled, revision := m.revision + 1)
  }

  ghost predicate ValidOp(op: Op) {
    op.Apply? ==> ValidEnv(op.env)
  }

  /** The ids of the user messages that an operation was shown. */
  function Shown(op: Op): set<nat> {
    if op.Apply? then set e | e in op.events && e.role == "user" :: e.id else {}
  }

  lemma OpGrows(m: Memory, op: Op)
    requires SoundFacts(m.facts) && ValidOp(op)
    ensures SoundFacts(Next(m, op).facts)
    ensures Grows(m.facts, Next(m, op).facts, Shown(op))
    ensures m.revision <= Next(m, op).revision
  {
    hide MergedAll, Balanced, ValidEnv, Sound, SoundFacts, Grows;
    GrowsReflexive(m.facts, Shown(op));
    match op
    case Apply(room, events, items, env) =>
      if events != [] && m.enabled {
        var allowed := Allowed(events, Cursor(m, room));
        assert allowed <= Shown(op);
        MergedAllGrows(m.facts, items, |items|, allowed, events, env);
        var facts := MergedAll(m.facts, items, |items|, allowed, events, env);
        BalancedGrows(facts, env.now);
        GrowsTransitive(m.facts, facts, Balanced(facts, env.now), allowed, {}, Shown(op));
      }
    case ReadHot(now) =>
      BalancedGrows(m.facts, now);
    case SetEnabled(_) =>
  }

  // ---------- the size of the hot tier ----------

  /** Gathering evidence makes no fact hot. */
  lemma MergedHotCount(facts: seq<Fact>, k: nat, item: Extracted, allowed: set<nat>, events: seq<Event>, env: Env)
    ensures HotCount(Merged(facts, k, item, allowed, events, env)) == HotCount(facts)
  {
    var key, text := env.lower(Text.Trim(item.key)), Text.Trim(item.text);
    var ids := env.order(k, Evidenced(item, allowed));
    if Acceptable(key, text) && ids != [] {
      hide Acceptable, Fresh;
      match IndexOf(facts, key)
      case Some(i) =>
        AbsorbedKeepsHot(facts[i], text, ids, events, env.now);
        HotCountUpdate(facts, i, Absorbed(facts[i], text, ids, events, env.now));
      case None =>
        var created := Fresh(key, text, ids, events, env.now);
        FreshIsNotHot(key, text, ids, events, env.now);
        AbsorbedKeepsHot(created, text, ids, events, env.now);
        hide Absorbed;
        var added := Absorbed(created, text, ids, events, env.now);
        assert (facts + [added])[..|facts|] == facts;
    }
  }

  lemma FreshIsNotHot(key: string, text: string, ids: seq<nat>, events: seq<Event>, now: nat)
    requires ids != []
    ensures !Hot(Fresh(key, text, ids, events, now))
  {
  }

  lemma AbsorbedKeepsHot(f: Fact, text: string, ids: seq<nat>, events: seq<Event>, now: nat)
    requires ids != []
    ensures Hot(Absorbed(f, text, ids, events, now)) == Hot(f)
  {
    CountedKeepsHot(Stretched(f, text, ids, events, now), ids, |ids|, events, now);
  }

  lemma {:induction false} CountedKeepsHot(f: Fact, ids: seq<nat>, n: nat, events: seq<Event>, now: nat)
    requires n <= |ids|
    ensures Hot(Counted(f, ids, n, events, now)) == Hot(f)
  {
    if n > 0 {
      CountedKeepsHot(f, ids, n - 1, events, now);
    }
  }

  lemma {:induction false} MergedAllHotCount(facts: seq<Fact>, items: seq<Extracted>, n: nat,
                                             allowed: set<nat>, events: seq<Event>, env: Env)
    requires n <= |items|
    ensures HotCount(MergedAll(facts, items, n, allowed, events, env)) == HotCount(facts)
  {
    hide Merged, HotCount;
    if n > 0 {
      MergedAllHotCount(facts, items, n - 1, allowed, events, env);
      MergedHotCount(MergedAll(facts, items, n - 1, allowed, events, env), n - 1, items[n - 1], allowed, events, env);
    }
  }

  /** The facts are sound, and the hot tier is within its capacity. */
  predicate Tidy(facts: seq<Fact>) {
    SoundFacts(facts) && HotCount(facts) <= HOT_CAPACITY
  }

  /** The hot facts are the most recently seen ones of all mature cached facts. */
  predicate TopOfCache(facts: seq<Fact>, now: nat) {
    forall j :: 0 <= j < |facts| && Candidate(facts[j], now) ==>
      && HotCount(facts) == HOT_CAPACITY
      && forall h :: 0 <= h < |facts| && Hot(facts[h]) ==> facts[h].lastSeen >= facts[j].lastSeen
  }

  lemma BalancedIsTidy(facts: seq<Fact>, now: nat)
    requires Tidy(facts)
    ensures Tidy(Balanced(facts, now)) && TopOfCache(Balanced(facts, now), now)
  {
    hide Balanced, HotCount;
    assert HotIsCached(facts) by {
      forall i | 0 <= i < |facts| && Hot(facts[i])
        ensures facts[i].cacheSince.Some?
      {
        assert Sound(facts[i]);
      }
    }
    BalancedGrows(facts, now);
    HotTierIsTopK(facts, now);
  }

  /** The time at which an operation passes over the tiers, if it does. */
  function PassesAt(m: Memory, op: Op): Option<nat> {
    if !m.enabled then None else
    match op
    case Apply(_, events, _, env) => if events == [] then None else Some(env.now)
    case ReadHot(now) => Some(now)
    case SetEnabled(_) => None
  }

  /** Every operation keeps the facts tidy, and an operation that passes over the tiers leaves the top of the
      cache hot. */
  lemma OpIsTidy(m: Memory, op: Op)
    requires Tidy(m.facts) && ValidOp(op)
    ensures Tidy(Next(m, op).facts)
    ensures PassesAt(m, op).Some? ==> TopOfCache(Next(m, op).facts, PassesAt(m, op).value)
  {
    hide MergedAll, Balanced, ValidEnv, SoundFacts, HotCount, TopOfCache;
    match op
    case Apply(room, events, items, env) =>
      if events != [] && m.enabled {
        var allowed := Allowed(events, Cursor(m, room));
        MergedAllGrows(m.facts, items, |items|, allowed, events, env);
        MergedAllHotCount(m.facts, items, |items|, allowed, events, env);
        BalancedIsTidy(MergedAll(m.facts, items, |items|, allowed, events, env), env.now);
      }
    case ReadHot(now) =>
      BalancedIsTidy(m.facts, now);
    case SetEnabled(_) =>
  }

  // ---------- cursors ----------

  /** An uninterrupted pair of `unprocessed` and `apply` moves the cursor forward and leaves nothing
      of that context to process again. */
  lemma ProcessedOnce(m: Memory, room: nat, context: seq<Event>, items: seq<Extracted>, env: Env)
    requires Unprocessed(m, room, context) != []
    ensures var later := Applied(m, room, Unprocessed(m, room, context), items, env);
            Cursor(later, room) > Cursor(m, room) && Unprocessed(later, room, context) == []
  {
    var events := Unprocessed(m, room, context);
    var later := Applied(m, room, events, items, env);
    assert Cursor(later, room) == MaxId(events);
    assert events[0] in events;
    assert forall e :: e in context && e.id > Cursor(m, room) ==> e in events;
  }

  /** The cursor is the maximum of the last batch: it moves back exactly when that batch ends earlier. */
  lemma CursorMovesBackExactly(m: Memory, room: nat, events: seq<Event>, items: seq<Extracted>, env: Env)
    ensures Cursor(Applied(m, room, events, items, env), room) < Cursor(m, room)
            <==> m.enabled && events != [] && forall e :: e in events ==> e.id < Cursor(m, room)
  {
    if m.enabled && events != [] {
      assert Cursor(Applied(m, room, events, items, env), room) == MaxId(events);
    }
  }

  /** Two workers that read the same cursor and store in the wrong order move it back, but no message
      counts twice. */
  lemma OverlappingBatches(m: Memory, room: nat, context: seq<Event>, more: seq<Event>,
                           items: seq<Extracted>, items': seq<Extracted>, env: Env)
    requires m.enabled && SoundFacts(m.facts) && ValidEnv(env)
    requires var early := Unprocessed(m, room, context); early != []
    requires var early, late := Unprocessed(m, room, context), Unprocessed(m, room, context + more);
             late != [] && MaxId(late) > MaxId(early)
    ensures var early, late := Unprocessed(m, room, context), Unprocessed(m, room, context + more);
            var first := Applied(m, room, late, items, env);
            var second := Applied(first, room, early, items', env);
            && Cursor(second, room) < Cursor(first, room)
            && SoundFacts(second.facts)
  {
    hide MergedAll, Balanced, ValidEnv, SoundFacts, Grows;
    var early, late := Unprocessed(m, room, context), Unprocessed(m, room, context + more);
    var first := Applied(m, room, late, items, env);
    OpGrows(m, Apply(room, late, items, env));
    OpGrows(first, Apply(room, early, items', env));
    CursorMovesBackExactly(first, room, early, items', env);
  }
}
