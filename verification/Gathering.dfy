/** What a batch of messages leaves in long-term memory, in plain terms: every usable item is remembered under its
    key, with its evidence, its times and its text, and nothing else is touched. */
module Gathering {
  import opened Options
  import opened Memory
  import opened Evidence
  import Text

  // ---------- what an item says ----------

  function KeyOf(item: Extracted, env: Env): string {
    env.lower(Text.Trim(item.key))
  }

  function TextOf(item: Extracted): string {
    Text.Trim(item.text)
  }

  /** A message of the user that this room has not had processed yet. */
  predicate IsNews(events: seq<Event>, id: nat, cursor: nat) {
    exists e :: e in events && e.id == id && e.id > cursor && e.role == "user"
  }

  function EvidenceOf(item: Extracted, events: seq<Event>, cursor: nat): set<nat> {
    set id | id in item.evidenceIds && IsNews(events, id, cursor)
  }

  /** The item is usable, and about this key. */
  predicate Names(item: Extracted, key: string, events: seq<Event>, cursor: nat, env: Env) {
    && KeyOf(item, env) == key && key != "" && Text.Utf8Length(key) <= 160
    && TextOf(item) != "" && Text.Utf8Length(TextOf(item)) <= 500
    && EvidenceOf(item, events, cursor) != {}
  }

  predicate NamedBy(items: seq<Extracted>, n: nat, key: string, events: seq<Event>, cursor: nat, env: Env)
    requires n <= |items|
  {
    exists k :: 0 <= k < n && Names(items[k], key, events, cursor, env)
  }

  /** All evidence that the first `n` items have for a key. */
  function Gathered(items: seq<Extracted>, n: nat, key: string, events: seq<Event>, cursor: nat, env: Env): set<nat>
    requires n <= |items|
  {
    set k, id | 0 <= k < n && id in EvidenceOf(items[k], events, cursor) && Names(items[k], key, events, cursor, env)
      :: id
  }

  predicate IsLastText(items: seq<Extracted>, n: nat, key: string, events: seq<Event>, cursor: nat, env: Env,
                       text: string)
    requires n <= |items|
  {
    exists k :: 0 <= k < n && Names(items[k], key, events, cursor, env) && text == TextOf(items[k])
                && forall j :: k < j < n ==> !Names(items[j], key, events, cursor, env)
  }

  // ---------- times ----------

  /** When a message was sent; a missing time stamp counts as now. */
  predicate IsTimeOf(events: seq<Event>, id: nat, now: nat, t: nat) {
    exists k :: 0 <= k < |events| && events[k].id == id && (forall j :: 0 <= j < k ==> events[j].id != id)
                && t == if events[k].createdAt == 0 then now else events[k].createdAt
  }

  lemma {:induction false} FirstEvent(events: seq<Event>, id: nat, now: nat) returns (k: nat)
    requires exists e :: e in events && e.id == id
    ensures k < |events| && events[k].id == id && forall j :: 0 <= j < k ==> events[j].id != id
    ensures TimeOf(events, id, now) == if events[k].createdAt == 0 then now else events[k].createdAt
  {
    if events[0].id == id {
      k := 0;
    } else {
      var rest := FirstEvent(events[1..], id, now);
      k := rest + 1;
      forall j | 0 <= j < k
        ensures events[j].id != id
      {
        assert j > 0 ==> events[1..][j - 1] == events[j];
      }
    }
  }

  lemma TimeOfExactly(events: seq<Event>, id: nat, now: nat)
    requires exists e :: e in events && e.id == id
    ensures IsTimeOf(events, id, now, TimeOf(events, id, now))
  {
    var k := FirstEvent(events, id, now);
    assert events[k].id == id;
  }

  /** The window keeps exactly the mentions of the last 48 hours, each as often as it occurs. */
  lemma {:induction false} WithinExactly(times: seq<nat>, now: nat, t: nat)
    ensures multiset(Within(times, now))[t] == if now <= t + 172_800_000 then multiset(times)[t] else 0
  {
    if times != [] {
      var front, last := times[..|times| - 1], times[|times| - 1];
      assert times == front + [last];
      WithinExactly(front, now, t);
    }
  }

  lemma {:induction false} WithinConcat(a: seq<nat>, b: seq<nat>, now: nat)
    ensures Within(a + b, now) == Within(a, now) + Within(b, now)
  {
    if b == [] {
      assert a + b == a;
    } else {
      var n := |b| - 1;
      assert (a + b)[..|a + b| - 1] == a + b[..n];
      WithinConcat(a, b[..n], now);
    }
  }

  function SetOf(ids: seq<nat>): set<nat> {
    set id | id in ids
  }

  function Times(ids: seq<nat>, events: seq<Event>, now: nat): (r: seq<nat>)
    ensures |r| == |ids|
  {
    seq(|ids|, k requires 0 <= k < |ids| => TimeOf(events, ids[k], now))
  }

  // ---------- one fact takes evidence in ----------

  predicate SpanOk(f: Fact, g: Fact, ids: set<nat>, events: seq<Event>, now: nat) {
    && g.firstSeen <= f.firstSeen && f.lastSeen <= g.lastSeen
    && (forall id :: id in ids ==> g.firstSeen <= TimeOf(events, id, now) <= g.lastSeen)
    && (g.firstSeen == f.firstSeen || exists id :: id in ids && g.firstSeen == TimeOf(events, id, now))
    && (g.lastSeen == f.lastSeen || exists id :: id in ids && g.lastSeen == TimeOf(events, id, now))
  }

  /** `g` is `f` with exactly this evidence and this text. */
  ghost predicate Absorbs(f: Fact, g: Fact, ids: set<nat>, text: string, events: seq<Event>, now: nat) {
    && g.key == f.key && g.text == text && g.hotSince == f.hotSince
    && f.sources <= g.sources && Distinct(g.sources)
    && (forall id :: id in g.sources <==> id in f.sources || id in ids)
    && g.recent == Within(f.recent + Times(g.sources[|f.sources|..], events, now), now)
    && SpanOk(f, g, ids, events, now)
    && g.cacheSince == if f.cacheSince.None? && |g.recent| >= 3 then Some(now) else f.cacheSince
  }

  lemma {:induction false} CountedTimes(f: Fact, ids: seq<nat>, n: nat, events: seq<Event>, now: nat)
    requires n <= |ids|
    ensures var g := Counted(f, ids, n, events, now);
            f.sources <= g.sources && g.recent == f.recent + Times(g.sources[|f.sources|..], events, now)
  {
    if n > 0 {
      CountedTimes(f, ids, n - 1, events, now);
      var before, g := Counted(f, ids, n - 1, events, now), Counted(f, ids, n, events, now);
      if g != before {
        OneMoreTime(before.sources[|f.sources|..], ids[n - 1], events, now);
        assert g.sources[|f.sources|..] == before.sources[|f.sources|..] + [ids[n - 1]];
      }
    } else {
      assert f.sources[|f.sources|..] == [];
    }
  }

  lemma OneMoreTime(ids: seq<nat>, id: nat, events: seq<Event>, now: nat)
    ensures Times(ids + [id], events, now) == Times(ids, events, now) + [TimeOf(events, id, now)]
  {
  }

  lemma AbsorbedAbsorbs(f: Fact, text: string, ids: seq<nat>, events: seq<Event>, now: nat)
    requires ids != [] && Sound(f)
    ensures Absorbs(f, Absorbed(f, text, ids, events, now), SetOf(ids), text, events, now)
  {
    hide Within, TimeOf, Times;
    var stretched := Stretched(f, text, ids, events, now);
    CountedGrows(stretched, ids, |ids|, events, now);
    CountedTimes(stretched, ids, |ids|, events, now);
    assert ids[..|ids|] == ids;
    hide Counted;
  }

  lemma TimesConcat(a: seq<nat>, b: seq<nat>, events: seq<Event>, now: nat)
    ensures Times(a + b, events, now) == Times(a, events, now) + Times(b, events, now)
  {
  }

  /** Evidence may come in two portions. */
  lemma AbsorbsTwice(f: Fact, g: Fact, h: Fact, x: set<nat>, y: set<nat>, a: string, b: string, events: seq<Event>,
                     now: nat)
    requires Absorbs(f, g, x, a, events, now) && Absorbs(g, h, y, b, events, now)
    ensures Absorbs(f, h, x + y, b, events, now)
  {
    hide Within, TimeOf, Times, SpanOk, Distinct;
    RecentTwice(f, g, h, events, now);
    SpansCompose(f, g, h, x, y, events, now);
    RecentGrows(f, g, h, events, now);
  }

  lemma RecentTwice(f: Fact, g: Fact, h: Fact, events: seq<Event>, now: nat)
    requires f.sources <= g.sources <= h.sources
    requires g.recent == Within(f.recent + Times(g.sources[|f.sources|..], events, now), now)
    requires h.recent == Within(g.recent + Times(h.sources[|g.sources|..], events, now), now)
    ensures h.recent == Within(f.recent + Times(h.sources[|f.sources|..], events, now), now)
  {
    hide Within, Times;
    var p, q := g.sources[|f.sources|..], h.sources[|g.sources|..];
    assert h.sources[|f.sources|..] == p + q;
    TimesConcat(p, q, events, now);
    var a, b := f.recent + Times(p, events, now), Times(q, events, now);
    assert f.recent + Times(p + q, events, now) == a + b;
    WithinConcat(a, b, now);
    WithinConcat(Within(a, now), b, now);
    WithinTwice(a, now);
  }

  lemma RecentGrows(f: Fact, g: Fact, h: Fact, events: seq<Event>, now: nat)
    requires f.sources <= g.sources <= h.sources
    requires g.recent == Within(f.recent + Times(g.sources[|f.sources|..], events, now), now)
    requires h.recent == Within(g.recent + Times(h.sources[|g.sources|..], events, now), now)
    ensures |g.recent| <= |h.recent|
  {
    hide Within, Times;
    var a := f.recent + Times(g.sources[|f.sources|..], events, now);
    WithinConcat(g.recent, Times(h.sources[|g.sources|..], events, now), now);
    WithinTwice(a, now);
  }

  lemma SpansCompose(f: Fact, g: Fact, h: Fact, x: set<nat>, y: set<nat>, events: seq<Event>, now: nat)
    requires SpanOk(f, g, x, events, now) && SpanOk(g, h, y, events, now)
    ensures SpanOk(f, h, x + y, events, now)
  {
    hide TimeOf;
  }

  /** A fact that is only now being made. */
  predicate IsBlank(f: Fact, ids: set<nat>, events: seq<Event>, now: nat) {
    && f.sources == [] && f.recent == [] && f.cacheSince == None && f.hotSince == None
    && (exists id :: id in ids && f.firstSeen == TimeOf(events, id, now))
    && (exists id :: id in ids && f.lastSeen == TimeOf(events, id, now))
  }

  ghost predicate IsNew(g: Fact, ids: set<nat>, text: string, events: seq<Event>, now: nat) {
    exists f :: IsBlank(f, ids, events, now) && Absorbs(f, g, ids, text, events, now)
  }

  lemma FreshIsNew(key: string, text: string, ids: seq<nat>, events: seq<Event>, now: nat)
    requires ids != []
    ensures var g := Absorbed(Fresh(key, text, ids, events, now), text, ids, events, now);
            IsNew(g, SetOf(ids), text, events, now) && g.key == key
  {
    hide Absorbed, Within, TimeOf;
    var f := Fresh(key, text, ids, events, now);
    FreshIsSound(key, text, ids, events, now);
    AbsorbedAbsorbs(f, text, ids, events, now);
    assert IsBlank(f, SetOf(ids), events, now);
  }

  lemma FreshIsSound(key: string, text: string, ids: seq<nat>, events: seq<Event>, now: nat)
    requires ids != []
    ensures Sound(Fresh(key, text, ids, events, now))
  {
    assert ids[0] in ids;
  }

  lemma NewAbsorbs(g: Fact, h: Fact, x: set<nat>, y: set<nat>, a: string, b: string, events: seq<Event>, now: nat)
    requires IsNew(g, x, a, events, now) && Absorbs(g, h, y, b, events, now)
    ensures IsNew(h, x + y, b, events, now)
  {
    hide Absorbs, TimeOf;
    var f :| IsBlank(f, x, events, now) && Absorbs(f, g, x, a, events, now);
    AbsorbsTwice(f, g, h, x, y, a, b, events, now);
    BlankMore(f, x, x + y, events, now);
  }

  lemma BlankMore(f: Fact, x: set<nat>, y: set<nat>, events: seq<Event>, now: nat)
    requires IsBlank(f, x, events, now) && x <= y
    ensures IsBlank(f, y, events, now)
  {
    hide TimeOf;
  }

  // ---------- a batch ----------

  /** What has become of fact `i` after `n` items. */
  ghost predicate FactOk(facts: seq<Fact>, r: seq<Fact>, i: nat, items: seq<Extracted>, n: nat,
                         events: seq<Event>, cursor: nat, env: Env)
    requires i < |r| && n <= |items|
  {
    var key := r[i].key;
    var ids := Gathered(items, n, key, events, cursor, env);
    if NamedBy(items, n, key, events, cursor, env) then
      && IsLastText(items, n, key, events, cursor, env, r[i].text)
      && (if i < |facts| then Absorbs(facts[i], r[i], ids, r[i].text, events, env.now)
          else IsNew(r[i], ids, r[i].text, events, env.now))
    else i < |facts| && r[i] == facts[i]
  }

  predicate HasKey(facts: seq<Fact>, key: string) {
    exists i :: 0 <= i < |facts| && facts[i].key == key
  }

  ghost predicate MergedOk(facts: seq<Fact>, r: seq<Fact>, items: seq<Extracted>, n: nat,
                           events: seq<Event>, cursor: nat, env: Env)
    requires n <= |items|
  {
    && |facts| <= |r|
    && (forall i :: 0 <= i < |facts| ==> r[i].key == facts[i].key)
    && (forall i :: 0 <= i < |r| ==> FactOk(facts, r, i, items, n, events, cursor, env))
    && (forall key :: NamedBy(items, n, key, events, cursor, env) ==> HasKey(r, key))
  }

  /** The last item is not about this key. */
  lemma NotNamed(items: seq<Extracted>, n: nat, key: string, events: seq<Event>, cursor: nat, env: Env)
    requires 0 < n <= |items| && !Names(items[n - 1], key, events, cursor, env)
    ensures NamedBy(items, n, key, events, cursor, env) == NamedBy(items, n - 1, key, events, cursor, env)
    ensures Gathered(items, n, key, events, cursor, env) == Gathered(items, n - 1, key, events, cursor, env)
    ensures forall text :: IsLastText(items, n - 1, key, events, cursor, env, text) ==>
              IsLastText(items, n, key, events, cursor, env, text)
  {
    hide Names;
    forall text | IsLastText(items, n - 1, key, events, cursor, env, text)
      ensures IsLastText(items, n, key, events, cursor, env, text)
    {
      var k :| 0 <= k < n - 1 && Names(items[k], key, events, cursor, env) && text == TextOf(items[k])
               && forall j :: k < j < n - 1 ==> !Names(items[j], key, events, cursor, env);
      assert forall j :: k < j < n ==> !Names(items[j], key, events, cursor, env);
    }
  }

  /** The last item is about this key. */
  lemma NowNamed(items: seq<Extracted>, n: nat, key: string, events: seq<Event>, cursor: nat, env: Env)
    requires 0 < n <= |items| && Names(items[n - 1], key, events, cursor, env)
    ensures NamedBy(items, n, key, events, cursor, env)
    ensures Gathered(items, n, key, events, cursor, env)
         == Gathered(items, n - 1, key, events, cursor, env) + EvidenceOf(items[n - 1], events, cursor)
    ensures !NamedBy(items, n - 1, key, events, cursor, env) ==> Gathered(items, n - 1, key, events, cursor, env) == {}
    ensures IsLastText(items, n, key, events, cursor, env, TextOf(items[n - 1]))
  {
    hide Names, EvidenceOf;
  }

  /** What a merge does with its item. */
  lemma MergedCases(r: seq<Fact>, k: nat, item: Extracted, events: seq<Event>, cursor: nat, env: Env)
    requires ValidEnv(env)
    ensures var key, text, found := KeyOf(item, env), TextOf(item), EvidenceOf(item, events, cursor);
            var ids := env.order(k, found);
            var after := Merged(r, k, item, Allowed(events, cursor), events, env);
            && SetOf(ids) == found
            && (if Names(item, key, events, cursor, env) then
                  && ids != []
                  && (match IndexOf(r, key)
                      case Some(i) => after == r[i := Absorbed(r[i], text, ids, events, env.now)]
                      case None =>
                        after == r + [Absorbed(Fresh(key, text, ids, events, env.now), text, ids, events, env.now)])
                else after == r)
  {
    hide Absorbed, Fresh, IndexOf, Text.Utf8Length, Text.Trim, EvidenceOf, Evidenced, Allowed;
    var found := EvidenceOf(item, events, cursor);
    EvidenceIsAllowed(item, events, cursor);
    var ids := env.order(k, found);
    assert forall id :: id in ids <==> id in found;
    assert SetOf(ids) == found;
    EmptyOrder(ids, found);
  }

  lemma EvidenceIsAllowed(item: Extracted, events: seq<Event>, cursor: nat)
    ensures EvidenceOf(item, events, cursor) == Evidenced(item, Allowed(events, cursor))
  {
  }

  lemma EmptyOrder(ids: seq<nat>, found: set<nat>)
    requires forall id :: id in ids <==> id in found
    ensures ids == [] <==> found == {}
  {
    if ids != [] {
      assert ids[0] in ids;
    }
    if id :| id in found {
      assert id in ids;
    }
  }

  lemma UntouchedOk(facts: seq<Fact>, r: seq<Fact>, after: seq<Fact>, i: nat, items: seq<Extracted>, n: nat,
                    events: seq<Event>, cursor: nat, env: Env)
    requires 0 < n <= |items| && i < |r| && i < |after| && after[i] == r[i]
    requires FactOk(facts, r, i, items, n - 1, events, cursor, env)
    requires !Names(items[n - 1], r[i].key, events, cursor, env)
    ensures FactOk(facts, after, i, items, n, events, cursor, env)
  {
    hide Absorbs, IsNew, Gathered, IsLastText, NamedBy, Names;
    NotNamed(items, n, r[i].key, events, cursor, env);
  }

  lemma AbsorbedOk(facts: seq<Fact>, r: seq<Fact>, after: seq<Fact>, i: nat, items: seq<Extracted>, n: nat,
                   ids: seq<nat>, events: seq<Event>, cursor: nat, env: Env)
    requires 0 < n <= |items| && i < |r| && i < |after|
    requires FactOk(facts, r, i, items, n - 1, events, cursor, env) && Sound(r[i])
    requires Names(items[n - 1], r[i].key, events, cursor, env)
    requires ids != [] && SetOf(ids) == EvidenceOf(items[n - 1], events, cursor)
    requires after[i] == Absorbed(r[i], TextOf(items[n - 1]), ids, events, env.now)
    ensures after[i].key == r[i].key && FactOk(facts, after, i, items, n, events, cursor, env)
  {
    hide Gathered, IsLastText, NamedBy, Names, EvidenceOf, Absorbed, Sound, SetOf, Within, Times, SpanOk, TimeOf;
    var key, text := r[i].key, TextOf(items[n - 1]);
    NowNamed(items, n, key, events, cursor, env);
    AbsorbedAbsorbs(r[i], text, ids, events, env.now);
    assert after[i].key == r[i].key && after[i].text == text;
    hide Absorbs, IsNew;
    var before, found := Gathered(items, n - 1, key, events, cursor, env), SetOf(ids);
    if NamedBy(items, n - 1, key, events, cursor, env) {
      if i < |facts| {
        AbsorbsTwice(facts[i], r[i], after[i], before, found, r[i].text, text, events, env.now);
      } else {
        NewAbsorbs(r[i], after[i], before, found, r[i].text, text, events, env.now);
      }
    } else {
      assert before + found == found;
    }
  }

  lemma AppendedOk(facts: seq<Fact>, r: seq<Fact>, after: seq<Fact>, items: seq<Extracted>, n: nat,
                   ids: seq<nat>, events: seq<Event>, cursor: nat, env: Env)
    requires 0 < n <= |items| && |facts| <= |r|
    requires var key, text := KeyOf(items[n - 1], env), TextOf(items[n - 1]);
             && Names(items[n - 1], key, events, cursor, env) && !NamedBy(items, n - 1, key, events, cursor, env)
             && ids != [] && SetOf(ids) == EvidenceOf(items[n - 1], events, cursor)
             && after == r + [Absorbed(Fresh(key, text, ids, events, env.now), text, ids, events, env.now)]
    ensures FactOk(facts, after, |r|, items, n, events, cursor, env)
  {
    hide Gathered, IsLastText, NamedBy, Names, EvidenceOf, Absorbed, Fresh, IsNew, SetOf;
    var key, text := KeyOf(items[n - 1], env), TextOf(items[n - 1]);
    NowNamed(items, n, key, events, cursor, env);
    FreshIsNew(key, text, ids, events, env.now);
    var g := after[|r|];
    assert g.text == text by {
      NewHasText(g, SetOf(ids), text, events, env.now);
    }
    assert Gathered(items, n - 1, key, events, cursor, env) + SetOf(ids) == SetOf(ids);
  }

  lemma NewHasText(g: Fact, ids: set<nat>, text: string, events: seq<Event>, now: nat)
    requires IsNew(g, ids, text, events, now)
    ensures g.text == text
  {
  }

  lemma MergeStep(facts: seq<Fact>, r: seq<Fact>, items: seq<Extracted>, n: nat, events: seq<Event>, cursor: nat,
                  env: Env)
    requires 0 < n <= |items| && ValidEnv(env) && SoundFacts(r)
    requires MergedOk(facts, r, items, n - 1, events, cursor, env)
    ensures var after := Merged(r, n - 1, items[n - 1], Allowed(events, cursor), events, env);
            MergedOk(facts, after, items, n, events, cursor, env)
  {
    hide FactOk, NamedBy, Names, Merged, Absorbed, Fresh, Sound, ValidEnv, SetOf, EvidenceOf, Allowed, IndexOf;
    var item, key := items[n - 1], KeyOf(items[n - 1], env);
    var after := Merged(r, n - 1, item, Allowed(events, cursor), events, env);
    var ids := env.order(n - 1, EvidenceOf(item, events, cursor));
    MergedCases(r, n - 1, item, events, cursor, env);
    NamedKeys(items, n, events, cursor, env);
    if Names(item, key, events, cursor, env) {
      if IndexOf(r, key).Some? {
        var at := IndexOf(r, key).value;
        AbsorbedOk(facts, r, after, at, items, n, ids, events, cursor, env);
        KeysStay(r, after, at);
        forall i | 0 <= i < |after| && i != at
          ensures FactOk(facts, after, i, items, n, events, cursor, env)
        {
          NamesOnly(item, key, r[i].key, events, cursor, env);
          UntouchedOk(facts, r, after, i, items, n, events, cursor, env);
        }
      } else {
        AppendedOk(facts, r, after, items, n, ids, events, cursor, env);
        KeyAdded(r, after, key, item, ids, events, env);
        forall i | 0 <= i < |r|
          ensures FactOk(facts, after, i, items, n, events, cursor, env)
        {
          NamesOnly(item, key, r[i].key, events, cursor, env);
          UntouchedOk(facts, r, after, i, items, n, events, cursor, env);
        }
      }
    } else {
      forall i | 0 <= i < |r|
        ensures FactOk(facts, after, i, items, n, events, cursor, env)
      {
        NamesOnly(item, key, r[i].key, events, cursor, env);
        UntouchedOk(facts, r, after, i, items, n, events, cursor, env);
      }
    }
  }

  /** An item names its own key at most. */
  lemma NamesOnly(item: Extracted, key: string, other: string, events: seq<Event>, cursor: nat, env: Env)
    requires key == KeyOf(item, env)
    ensures Names(item, other, events, cursor, env) ==> other == key
  {
  }

  lemma NamedKeys(items: seq<Extracted>, n: nat, events: seq<Event>, cursor: nat, env: Env)
    requires 0 < n <= |items|
    ensures forall key :: NamedBy(items, n, key, events, cursor, env) ==>
              || NamedBy(items, n - 1, key, events, cursor, env)
              || (key == KeyOf(items[n - 1], env) && Names(items[n - 1], key, events, cursor, env))
  {
    hide EvidenceOf;
  }

  lemma KeysStay(r: seq<Fact>, after: seq<Fact>, at: nat)
    requires |after| == |r| && at < |r| && after[at].key == r[at].key
    requires forall i :: 0 <= i < |r| && i != at ==> after[i] == r[i]
    ensures forall i :: 0 <= i < |r| ==> after[i].key == r[i].key
    ensures forall key :: HasKey(r, key) ==> HasKey(after, key)
  {
    forall key | HasKey(r, key)
      ensures HasKey(after, key)
    {
      var i :| 0 <= i < |r| && r[i].key == key;
      assert after[i].key == key;
    }
  }

  lemma KeyAdded(r: seq<Fact>, after: seq<Fact>, key: string, item: Extracted, ids: seq<nat>, events: seq<Event>,
                 env: Env)
    requires ids != []
    requires after == r + [Absorbed(Fresh(key, TextOf(item), ids, events, env.now), TextOf(item), ids, events, env.now)]
    ensures HasKey(after, key) && forall k :: HasKey(r, k) ==> HasKey(after, k)
  {
    FreshIsNew(key, TextOf(item), ids, events, env.now);
    hide Absorbed, Fresh;
    assert after[|r|].key == key;
    forall k | HasKey(r, k)
      ensures HasKey(after, k)
    {
      var i :| 0 <= i < |r| && r[i].key == k;
      assert after[i].key == k;
    }
  }

  /** After `n` items: every fact that was named has taken in exactly its evidence, a new fact was made for every
      new key, and the rest is as before. */
  lemma {:induction false} MergedAllExactly(facts: seq<Fact>, items: seq<Extracted>, n: nat,
                                            events: seq<Event>, cursor: nat, env: Env)
    requires n <= |items| && ValidEnv(env) && SoundFacts(facts)
    ensures MergedOk(facts, MergedAll(facts, items, n, Allowed(events, cursor), events, env), items, n, events, cursor,
                     env)
  {
    hide Merged, Sound, ValidEnv, Allowed;
    if n > 0 {
      hide MergedOk;
      MergedAllExactly(facts, items, n - 1, events, cursor, env);
      MergedAllGrows(facts, items, n - 1, Allowed(events, cursor), events, env);
      MergeStep(facts, MergedAll(facts, items, n - 1, Allowed(events, cursor), events, env), items, n, events, cursor,
                env);
    }
  }

  // ---------- what is stored in the end ----------

  /** The part of a fact that the pass over the tiers leaves alone. */
  predicate SameContent(f: Fact, g: Fact) {
    (f.key, f.text, f.sources, f.firstSeen, f.lastSeen) == (g.key, g.text, g.sources, g.firstSeen, g.lastSeen)
  }

  lemma BalancedFact(facts: seq<Fact>, now: nat, i: nat)
    requires i < |facts|
    ensures var g := Balanced(facts, now)[i];
            && SameContent(facts[i], g) && g.recent == Within(facts[i].recent, now)
            && g.cacheSince == if Hot(facts[i]) && Idle(facts[i], now) then None else facts[i].cacheSince
  {
    hide Within, PromotedAll, HotCount, Beaten;
    BalancedProgress(facts, now);
    assert SameButHot(Balanced(facts, now)[i], SweptAll(facts, now)[i]);
  }

  /** A known fact after the batch. */
  ghost predicate Learns(f: Fact, g: Fact, ids: set<nat>, events: seq<Event>, now: nat) {
    && g.key == f.key && f.sources <= g.sources && Distinct(g.sources)
    && (forall id :: id in g.sources <==> id in f.sources || id in ids)
    && g.recent == Within(f.recent + Times(g.sources[|f.sources|..], events, now), now)
    && SpanOk(f, g, ids, events, now)
    && (|g.recent| >= 3 ==> g.cacheSince.Some?)
    && g.cacheSince == (if Hot(f) && Idle(g, now) then None
                        else if f.cacheSince.None? && |g.recent| >= 3 then Some(now) else f.cacheSince)
  }

  /** A new fact after the batch. */
  ghost predicate LearnsNew(g: Fact, ids: set<nat>, events: seq<Event>, now: nat) {
    && Distinct(g.sources) && (forall id :: id in g.sources <==> id in ids)
    && g.recent == Within(Times(g.sources, events, now), now)
    && (forall id :: id in ids ==> g.firstSeen <= TimeOf(events, id, now) <= g.lastSeen)
    && (exists id :: id in ids && g.firstSeen == TimeOf(events, id, now))
    && (exists id :: id in ids && g.lastSeen == TimeOf(events, id, now))
    && g.cacheSince == if |g.recent| >= 3 then Some(now) else None
  }

  /** A fact that the batch does not name: only its window moves on. */
  predicate Keeps(f: Fact, g: Fact, now: nat) {
    && SameContent(f, g) && g.recent == Within(f.recent, now)
    && g.cacheSince == if Hot(f) && Idle(f, now) then None else f.cacheSince
  }

  /** Facts with three mentions inside the window are not idle, and so they stay cached. */
  lemma RecentIsNotIdle(g: Fact, times: seq<nat>, now: nat)
    requires Sound(g) && g.recent == Within(times, now) && |g.recent| >= 3
    ensures !Idle(g, now)
  {
    assert g.recent[0] in g.recent;
  }

  lemma LearnsAfterPass(f: Fact, merged: Fact, g: Fact, ids: set<nat>, events: seq<Event>, now: nat)
    requires Absorbs(f, merged, ids, merged.text, events, now) && Sound(merged)
    requires SameContent(merged, g) && g.recent == Within(merged.recent, now)
    requires g.cacheSince == if Hot(merged) && Idle(merged, now) then None else merged.cacheSince
    ensures Learns(f, g, ids, events, now)
  {
    hide Within, TimeOf, Times, Sound, Distinct;
    var times := f.recent + Times(merged.sources[|f.sources|..], events, now);
    WithinTwice(times, now);
    if |g.recent| >= 3 {
      RecentIsNotIdle(merged, times, now);
    }
  }

  lemma NewAfterPass(merged: Fact, g: Fact, ids: set<nat>, events: seq<Event>, now: nat)
    requires IsNew(merged, ids, merged.text, events, now) && Sound(merged)
    requires SameContent(merged, g) && g.recent == Within(merged.recent, now)
    requires g.cacheSince == if Hot(merged) && Idle(merged, now) then None else merged.cacheSince
    ensures LearnsNew(g, ids, events, now)
  {
    hide Within, TimeOf, Times, Idle, Sound, Distinct, Absorbs;
    var f :| IsBlank(f, ids, events, now) && Absorbs(f, merged, ids, merged.text, events, now);
    LearnsAfterPass(f, merged, g, ids, events, now);
    assert f.recent + Times(g.sources[|f.sources|..], events, now) == Times(g.sources, events, now) by {
      assert g.sources[0..] == g.sources;
    }
  }

  ghost predicate FactLearned(before: seq<Fact>, after: seq<Fact>, i: nat, items: seq<Extracted>,
                              events: seq<Event>, cursor: nat, env: Env)
    requires i < |after|
  {
    var key := after[i].key;
    var ids := Gathered(items, |items|, key, events, cursor, env);
    if NamedBy(items, |items|, key, events, cursor, env) then
      && IsLastText(items, |items|, key, events, cursor, env, after[i].text)
      && (if i < |before| then Learns(before[i], after[i], ids, events, env.now)
          else LearnsNew(after[i], ids, events, env.now))
    else i < |before| && Keeps(before[i], after[i], env.now)
  }

  /** The memory after a batch. Every item that has a key and a text of fitting size and at least one allowed
      message as evidence is remembered under its key; each remembered fact has exactly the evidence of its items,
      each message once, with the time span of this evidence, the text of the last item, and a place in the cache
      if three of its mentions are in the window. No fact is lost, and those that are not named keep their content. */
  ghost predicate Remembers(before: Memory, after: Memory, room: nat, events: seq<Event>, items: seq<Extracted>,
                            env: Env) {
    var cursor := if room in before.cursors then before.cursors[room] else 0;
    && after.enabled == before.enabled
    && (exists last :: IsGreatestId(events, last) && after.cursors == before.cursors[room := last])
    && before.revision < after.revision <= before.revision + 2
    && |before.facts| <= |after.facts|
    && (forall key :: NamedBy(items, |items|, key, events, cursor, env) ==> HasKey(after.facts, key))
    && (forall i :: 0 <= i < |after.facts| ==> FactLearned(before.facts, after.facts, i, items, events, cursor, env))
  }

  predicate IsGreatestId(events: seq<Event>, last: nat) {
    (exists e :: e in events && e.id == last) && (forall e :: e in events ==> e.id <= last)
  }

  lemma FactIsLearned(before: seq<Fact>, merged: seq<Fact>, i: nat, items: seq<Extracted>,
                      events: seq<Event>, cursor: nat, env: Env)
    requires i < |merged| && |before| <= |merged| && Sound(merged[i])
    requires FactOk(before, merged, i, items, |items|, events, cursor, env)
    ensures FactLearned(before, Balanced(merged, env.now), i, items, events, cursor, env)
  {
    hide Balanced, Gathered, NamedBy, IsLastText, Absorbs, IsNew, Learns, LearnsNew, Sound, Within, Idle;
    var key, g := merged[i].key, Balanced(merged, env.now)[i];
    var ids := Gathered(items, |items|, key, events, cursor, env);
    BalancedFact(merged, env.now, i);
    if NamedBy(items, |items|, key, events, cursor, env) {
      if i < |before| {
        LearnsAfterPass(before[i], merged[i], g, ids, events, env.now);
      } else {
        NewAfterPass(merged[i], g, ids, events, env.now);
      }
    }
  }

  lemma KeysAfterPass(merged: seq<Fact>, now: nat, key: string)
    requires HasKey(merged, key)
    ensures HasKey(Balanced(merged, now), key)
  {
    var i :| 0 <= i < |merged| && merged[i].key == key;
    BalancedFact(merged, now, i);
    hide Balanced;
    assert Balanced(merged, now)[i].key == key;
  }

  /** An `apply` with something to apply remembers its batch. */
  lemma AppliedRemembers(m: Memory, room: nat, events: seq<Event>, items: seq<Extracted>, env: Env)
    requires m.enabled && events != [] && SoundFacts(m.facts) && ValidEnv(env)
    ensures Remembers(m, Applied(m, room, events, items, env), room, events, items, env)
  {
    hide MergedAll, Balanced, ValidEnv, Sound, FactOk, FactLearned, NamedBy, HasKey, Allowed, MaxId;
    var cursor := Cursor(m, room);
    var merged := MergedAll(m.facts, items, |items|, Allowed(events, cursor), events, env);
    MergedAllExactly(m.facts, items, |items|, events, cursor, env);
    MergedAllGrows(m.facts, items, |items|, Allowed(events, cursor), events, env);
    var after := Applied(m, room, events, items, env);
    assert after.facts == Balanced(merged, env.now);
    forall i | 0 <= i < |after.facts|
      ensures FactLearned(m.facts, after.facts, i, items, events, cursor, env)
    {
      FactIsLearned(m.facts, merged, i, items, events, cursor, env);
    }
    forall key | NamedBy(items, |items|, key, events, cursor, env)
      ensures HasKey(after.facts, key)
    {
      KeysAfterPass(merged, env.now, key);
    }
    assert IsGreatestId(events, MaxId(events)) && after.cursors == m.cursors[room := MaxId(events)];
  }

  // ---------- what is offered for extraction ----------

  /** A room offers the messages above its cursor, each as often as it has it, and none while memory is off. */
  lemma {:induction false} UnprocessedExactly(m: Memory, room: nat, context: seq<Event>, e: Event)
    ensures multiset(Unprocessed(m, room, context))[e] ==
              if m.enabled && e.id > (if room in m.cursors then m.cursors[room] else 0) then multiset(context)[e] else 0
  {
    AfterExactly(context, Cursor(m, room), e);
  }

  lemma {:induction false} AfterExactly(events: seq<Event>, cursor: nat, e: Event)
    ensures multiset(After(events, cursor))[e] == if e.id > cursor then multiset(events)[e] else 0
  {
    if events != [] {
      assert events == [events[0]] + events[1..];
      AfterExactly(events[1..], cursor, e);
    }
  }
}
