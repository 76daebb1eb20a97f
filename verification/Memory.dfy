/** Long-term memory of a Resident: evidence is gathered per fact, frequent facts enter a cache,
    and the most recently seen cached facts fill a hot tier of limited size. */
module Memory {
  import opened Options

  const FREQUENT_WINDOW_MS: nat := 48 * 60 * 60 * 1000
  const CACHE_DWELL_MS: nat := 24 * 60 * 60 * 1000
  const HOT_IDLE_MS: nat := 7 * 24 * 60 * 60 * 1000
  const HOT_CAPACITY: nat := 32

  datatype Fact = Fact(
    key: string, text: string, sources: seq<nat>,
    firstSeen: nat, lastSeen: nat, recent: seq<nat>,
    cacheSince: Option<nat>, hotSince: Option<nat>)

  datatype Memory = Memory(enabled: bool, facts: seq<Fact>, cursors: map<nat, nat>, revision: nat)

  const DEFAULT := Memory(false, [], map[], 0)

  function SaturatingSub(a: nat, b: nat): nat {
    if a >= b then a - b else 0
  }

  predicate Hot(f: Fact) {
    f.hotSince.Some?
  }

  predicate Idle(f: Fact, now: nat) {
    SaturatingSub(now, f.lastSeen) >= HOT_IDLE_MS
  }

  /** A fact that has been in the cache long enough to become hot. */
  predicate Mature(f: Fact, now: nat) {
    f.cacheSince.Some? && SaturatingSub(now, f.cacheSince.value) >= CACHE_DWELL_MS
  }

  predicate Candidate(f: Fact, now: nat) {
    !Hot(f) && Mature(f, now)
  }

  function HotCount(facts: seq<Fact>): (n: nat)
    ensures n <= |facts|
  {
    if facts == [] then 0
    else HotCount(facts[..|facts| - 1]) + if Hot(facts[|facts| - 1]) then 1 else 0
  }

  lemma {:induction false} HotCountUpdate(facts: seq<Fact>, i: nat, f: Fact)
    requires i < |facts|
    ensures HotCount(facts[i := f]) + (if Hot(facts[i]) then 1 else 0) == HotCount(facts) + (if Hot(f) then 1 else 0)
  {
    var n := |facts| - 1;
    if i == n {
      assert facts[i := f][..n] == facts[..n];
    } else {
      assert facts[i := f][..n] == facts[..n][i := f];
      HotCountUpdate(facts[..n], i, f);
    }
  }

  lemma {:induction false} HotCountWitness(facts: seq<Fact>)
    requires HotCount(facts) > 0
    ensures exists i :: 0 <= i < |facts| && Hot(facts[i])
  {
    var n := |facts| - 1;
    if Hot(facts[n]) {
    } else {
      HotCountWitness(facts[..n]);
      var i :| 0 <= i < |facts[..n]| && Hot(facts[..n][i]);
      assert Hot(facts[i]);
    }
  }

  // ---------- rebalance: the first loop ----------

  /** The mentions that are still inside the window. */
  function Within(times: seq<nat>, now: nat): (kept: seq<nat>)
    ensures |kept| <= |times|
    ensures |kept| == |times| ==> kept == times
    ensures forall t :: t in kept ==> t in times && SaturatingSub(now, t) <= FREQUENT_WINDOW_MS
  {
    if times == [] then [] else
    var kept := Within(times[..|times| - 1], now);
    var last := times[|times| - 1];
    if SaturatingSub(now, last) <= FREQUENT_WINDOW_MS then kept + [last] else kept
  }

  lemma {:induction false} WithinTwice(times: seq<nat>, now: nat)
    ensures Within(Within(times, now), now) == Within(times, now)
  {
    if times != [] {
      var front := times[..|times| - 1];
      WithinTwice(front, now);
      var kept := Within(front, now);
      if Within(times, now) != kept {
        assert Within(times, now)[..|kept|] == kept;
      }
    }
  }

  function Swept(f: Fact, now: nat): Fact {
    var trimmed := f.(recent := Within(f.recent, now));
    if Hot(f) && Idle(f, now) then trimmed.(hotSince := None, cacheSince := None) else trimmed
  }

  function SweptAll(facts: seq<Fact>, now: nat): (r: seq<Fact>)
    ensures |r| == |facts|
    ensures forall i :: 0 <= i < |r| ==> r[i] == Swept(facts[i], now)
  {
    seq(|facts|, i requires 0 <= i < |facts| => Swept(facts[i], now))
  }

  // ---------- rebalance: the second loop ----------

  function Candidates(facts: seq<Fact>, now: nat): (indices: seq<nat>)
    ensures forall k :: 0 <= k < |indices| ==> indices[k] < |facts| && Candidate(facts[indices[k]], now)
    ensures forall i :: 0 <= i < |facts| && Candidate(facts[i], now) ==> i in indices
    ensures forall a, b :: 0 <= a < b < |indices| ==> indices[a] < indices[b]
  {
    if facts == [] then [] else
    var n := |facts| - 1;
    var earlier := Candidates(facts[..n], now);
    if Candidate(facts[n], now) then earlier + [n] else earlier
  }

  /** The order by which the victim of an eviction is chosen. */
  predicate Worse(a: Fact, b: Fact) {
    a.lastSeen < b.lastSeen || (a.lastSeen == b.lastSeen && |a.sources| < |b.sources|)
  }

  /** The hot fact that an eviction takes: the first of the least recently seen ones. */
  function Worst(facts: seq<Fact>): (w: Option<nat>)
    ensures w.Some? ==> w.value < |facts| && Hot(facts[w.value])
    ensures w.Some? ==> forall i :: 0 <= i < |facts| && Hot(facts[i]) ==> !Worse(facts[i], facts[w.value])
    ensures w.Some? ==> forall i :: 0 <= i < w.value && Hot(facts[i]) ==> Worse(facts[w.value], facts[i])
    ensures w.None? ==> forall i :: 0 <= i < |facts| ==> !Hot(facts[i])
  {
    if facts == [] then None else
    var n := |facts| - 1;
    var w := Worst(facts[..n]);
    if Hot(facts[n]) && (w.None? || Worse(facts[n], facts[w.value])) then Some(n) else w
  }

  /** One turn of the promotion loop. */
  function Promoted(facts: seq<Fact>, i: nat, now: nat): (r: seq<Fact>)
    requires i < |facts|
    ensures |r| == |facts|
  {
    var w := Worst(facts);
    if HotCount(facts) >= HOT_CAPACITY && w.Some? then
      if facts[w.value].lastSeen >= facts[i].lastSeen then facts
      else
        var freed := facts[w.value := facts[w.value].(hotSince := None)];
        freed[i := freed[i].(hotSince := Some(now))]
    else facts[i := facts[i].(hotSince := Some(now))]
  }

  function PromotedAll(facts: seq<Fact>, indices: seq<nat>, now: nat): (r: seq<Fact>)
    requires forall k :: 0 <= k < |indices| ==> indices[k] < |facts|
    ensures |r| == |facts|
  {
    if indices == [] then facts else
    var n := |indices| - 1;
    Promoted(PromotedAll(facts, indices[..n], now), indices[n], now)
  }

  function Balanced(facts: seq<Fact>, now: nat): (r: seq<Fact>)
    ensures |r| == |facts|
  {
    var swept := SweptAll(facts, now);
    PromotedAll(swept, Candidates(swept, now), now)
  }

  /** `rebalance` as one step on the whole memory. */
  function Rebalanced(m: Memory, now: nat): Memory {
    var facts := Balanced(m.facts, now);
    if facts == m.facts then m else m.(facts := facts, revision := m.revision + 1)
  }

  // ---------- what the second loop keeps ----------

  /** The fact lost its place to at least `HOT_CAPACITY` hot facts, none seen less recently. */
  predicate Beaten(facts: seq<Fact>, j: nat)
    requires j < |facts|
  {
    && HotCount(facts) >= HOT_CAPACITY
    && forall h :: 0 <= h < |facts| && Hot(facts[h]) ==> facts[h].lastSeen >= facts[j].lastSeen
  }

  predicate SameButHot(a: Fact, b: Fact) {
    a == b.(hotSince := a.hotSince)
  }

  /** `cur` is reached from `start` after the candidates in `done`. */
  ghost predicate Progress(start: seq<Fact>, done: seq<nat>, cur: seq<Fact>) {
    && |cur| == |start|
    && (forall i :: 0 <= i < |start| ==> SameButHot(cur[i], start[i]))
    && (forall i :: 0 <= i < |start| && !Hot(start[i]) && i !in done ==> cur[i] == start[i])
    && (forall i :: 0 <= i < |start| && !Hot(cur[i]) && (i in done || Hot(start[i])) ==> Beaten(cur, i))
    && (HotCount(cur) <= HOT_CAPACITY || HotCount(cur) <= HotCount(start))
    && (cur == start || exists i :: 0 <= i < |start| && Hot(cur[i]) && !Hot(start[i]))
  }

  /** The three ways in which a promotion can end: no place, a free place, or the place of `w`. */
  lemma PromotedEffect(cur: seq<Fact>, i: nat, now: nat) returns (w: nat)
    requires i < |cur| && !Hot(cur[i])
    ensures var next := Promoted(cur, i, now);
            || (next == cur && Beaten(cur, i))
            || (HotCount(cur) < HOT_CAPACITY && HotCount(next) == HotCount(cur) + 1
                && next == cur[i := cur[i].(hotSince := Some(now))])
            || (HotCount(cur) >= HOT_CAPACITY && HotCount(next) == HotCount(cur)
                && w < |cur| && w != i && Hot(cur[w]) && Beaten(cur, w) && cur[w].lastSeen < cur[i].lastSeen
                && next == cur[w := cur[w].(hotSince := None)][i := cur[i].(hotSince := Some(now))])
  {
    var up := cur[i].(hotSince := Some(now));
    w := i;
    if HotCount(cur) >= HOT_CAPACITY {
      HotCountWitness(cur);
      w := Worst(cur).value;
      if cur[w].lastSeen < cur[i].lastSeen {
        var down := cur[w].(hotSince := None);
        HotCountUpdate(cur, w, down);
        HotCountUpdate(cur[w := down], i, up);
      }
    } else {
      HotCountUpdate(cur, i, up);
    }
  }

  lemma PromotionProgress(start: seq<Fact>, done: seq<nat>, cur: seq<Fact>, i: nat, now: nat)
    requires Progress(start, done, cur)
    requires i < |start| && !Hot(start[i]) && i !in done
    ensures Progress(start, done + [i], Promoted(cur, i, now))
    ensures Promoted(cur, i, now) != cur ==> Hot(Promoted(cur, i, now)[i])
  {
    hide Promoted, HotCount;
    var next := Promoted(cur, i, now);
    var w := PromotedEffect(cur, i, now);
    forall j | 0 <= j < |start| && !Hot(next[j]) && (j in done + [i] || Hot(start[j]))
      ensures Beaten(next, j)
    {
      if next == cur {
        assert j == i || Beaten(cur, j);
      } else if HotCount(cur) >= HOT_CAPACITY {
        assert j == w || Beaten(cur, j);
        forall h | 0 <= h < |next| && Hot(next[h])
          ensures next[h].lastSeen >= next[j].lastSeen
        {
          assert h == i || (Hot(cur[h]) && next[h] == cur[h]);
          assert cur[w].lastSeen >= cur[j].lastSeen;
        }
      }
    }
    assert forall k :: 0 <= k < |start| && k != i && (k != w || next == cur || HotCount(cur) < HOT_CAPACITY) ==>
        next[k] == cur[k];
  }

  lemma {:induction false} PromotionsProgress(start: seq<Fact>, indices: seq<nat>, now: nat)
    requires forall k :: 0 <= k < |indices| ==> indices[k] < |start| && !Hot(start[indices[k]])
    requires forall a, b :: 0 <= a < b < |indices| ==> indices[a] < indices[b]
    ensures Progress(start, indices, PromotedAll(start, indices, now))
  {
    if indices != [] {
      hide Progress, Promoted;
      var n := |indices| - 1;
      PromotionsProgress(start, indices[..n], now);
      PromotionProgress(start, indices[..n], PromotedAll(start, indices[..n], now), indices[n], now);
      assert indices[..n] + [indices[n]] == indices;
    }
  }

  lemma BalancedProgress(facts: seq<Fact>, now: nat)
    ensures var swept := SweptAll(facts, now);
            Progress(swept, Candidates(swept, now), Balanced(facts, now))
  {
    var swept := SweptAll(facts, now);
    PromotionsProgress(swept, Candidates(swept, now), now);
  }

  lemma {:induction false} SweptHotCount(facts: seq<Fact>, now: nat)
    ensures HotCount(SweptAll(facts, now)) <= HotCount(facts)
  {
    if facts != [] {
      var n := |facts| - 1;
      SweptHotCount(facts[..n], now);
      assert SweptAll(facts, now)[..n] == SweptAll(facts[..n], now);
    }
  }

  // ---------- results about rebalance ----------

  predicate HotIsCached(facts: seq<Fact>) {
    forall i :: 0 <= i < |facts| && Hot(facts[i]) ==> facts[i].cacheSince.Some?
  }

  /** The hot tier is a true top-k of the mature cached facts by last mention. */
  lemma HotTierIsTopK(facts: seq<Fact>, now: nat)
    requires HotCount(facts) <= HOT_CAPACITY && HotIsCached(facts)
    ensures var r := Balanced(facts, now);
            && HotCount(r) <= HOT_CAPACITY && HotIsCached(r)
            && forall j :: 0 <= j < |r| && Candidate(r[j], now) ==>
                 && HotCount(r) == HOT_CAPACITY
                 && forall h :: 0 <= h < |r| && Hot(r[h]) ==> r[h].lastSeen >= r[j].lastSeen
  {
    hide HotCount, PromotedAll, Within;
    var swept, r := SweptAll(facts, now), Balanced(facts, now);
    BalancedProgress(facts, now);
    SweptHotCount(facts, now);
    hide Balanced;
    forall j | 0 <= j < |r| && Candidate(r[j], now)
      ensures Beaten(r, j)
    {
      assert SameButHot(r[j], swept[j]);
      assert j in Candidates(swept, now) || Hot(swept[j]);
    }
    forall i | 0 <= i < |r| && Hot(r[i])
      ensures r[i].cacheSince.Some?
    {
      assert SameButHot(r[i], swept[i]);
      assert Hot(swept[i]) || i in Candidates(swept, now);
    }
  }

  /** A pass changes nothing exactly when it neither trims, nor demotes, nor promotes. */
  lemma BalancedSameExactly(facts: seq<Fact>, now: nat)
    ensures var swept := SweptAll(facts, now);
            Balanced(facts, now) == facts <==>
                swept == facts && PromotedAll(swept, Candidates(swept, now), now) == swept
  {
    var swept, r := SweptAll(facts, now), Balanced(facts, now);
    BalancedProgress(facts, now);
    if r == facts {
      forall i | 0 <= i < |swept| && Hot(r[i])
        ensures Hot(swept[i])
      {
        assert swept[i] == Swept(facts[i], now);
        assert i !in Candidates(swept, now);
      }
    }
  }

  /** A second pass at the same time changes nothing if and only if the first one left no idle
      fact hot: a fact can mature in the cache after a week without mentions. */
  lemma RebalanceFixpoint(facts: seq<Fact>, now: nat)
    ensures var r := Balanced(facts, now);
            Balanced(r, now) == r <==> !exists i :: 0 <= i < |r| && Hot(r[i]) && Idle(r[i], now)
  {
    hide PromotedAll, Within, Idle, Beaten;
    var swept, r := SweptAll(facts, now), Balanced(facts, now);
    BalancedProgress(facts, now);
    BalancedSameExactly(r, now);
    hide Balanced;
    var again := SweptAll(r, now);
    forall i | 0 <= i < |r|
      ensures Swept(r[i], now) == r[i] <==> !(Hot(r[i]) && Idle(r[i], now))
    {
      WithinTwice(facts[i].recent, now);
      assert SameButHot(r[i], swept[i]) && swept[i] == Swept(facts[i], now);
    }
    if exists i :: 0 <= i < |r| && Hot(r[i]) && Idle(r[i], now) {
      assert again != r;
    } else {
      assert again == r;
      LeftAreBeaten(swept, r, now);
      BeatenStays(r, Candidates(r, now), now);
    }
  }

  // ---------- a pass in plain terms ----------

  /** Places that are given out carry the time of the pass; kept places carry their own. */
  lemma {:induction false} PlacesAreDated(start: seq<Fact>, indices: seq<nat>, now: nat)
    requires forall k :: 0 <= k < |indices| ==> indices[k] < |start| && !Hot(start[indices[k]])
    ensures forall i :: 0 <= i < |start| && Hot(PromotedAll(start, indices, now)[i]) ==>
              PromotedAll(start, indices, now)[i].hotSince == if Hot(start[i]) then start[i].hotSince else Some(now)
  {
    if indices != [] {
      var n := |indices| - 1;
      PlacesAreDated(start, indices[..n], now);
      assert !Hot(start[indices[n]]);
      hide PromotedAll, HotCount, Worst;
    }
  }

  /** What a pass makes of one fact, with 48 hours, 24 hours, 7 days and 32 places in milliseconds and numbers. */
  lemma PassInNumbers(facts: seq<Fact>, now: nat, i: nat)
    requires i < |facts|
    ensures var (f, g, r) := (facts[i], Balanced(facts, now)[i], Balanced(facts, now));
            var expired := f.hotSince.Some? && f.lastSeen + 604_800_000 <= now;
            && (g.key, g.text, g.sources, g.firstSeen, g.lastSeen)
               == (f.key, f.text, f.sources, f.firstSeen, f.lastSeen)
            && g.recent == Within(f.recent, now)
            && g.cacheSince == (if expired then None else f.cacheSince)
            && (expired ==> g.hotSince == None)
            && (g.hotSince.Some? && f.hotSince.None? ==>
                  g.hotSince == Some(now) && f.cacheSince.Some? && f.cacheSince.value + 86_400_000 <= now)
            && (g.hotSince.Some? && f.hotSince.Some? ==> g.hotSince == f.hotSince)
            && (g.hotSince.None? && !expired && (f.hotSince.Some?
                    || (f.cacheSince.Some? && f.cacheSince.value + 86_400_000 <= now)) ==>
                  HotCount(r) >= 32 && forall h :: 0 <= h < |r| && r[h].hotSince.Some? ==> r[h].lastSeen >= g.lastSeen)
  {
    hide PromotedAll, Within, HotCount;
    var swept := SweptAll(facts, now);
    BalancedProgress(facts, now);
    PlacesAreDated(swept, Candidates(swept, now), now);
    assert swept[i] == Swept(facts[i], now) && SameButHot(Balanced(facts, now)[i], swept[i]);
    PlacesOf(swept, now, i);
  }

  lemma PlacesOf(swept: seq<Fact>, now: nat, i: nat)
    requires i < |swept|
    ensures Candidate(swept[i], now) ==> i in Candidates(swept, now)
    ensures !Hot(swept[i]) && !Candidate(swept[i], now) ==> i !in Candidates(swept, now)
  {
  }

  /** Who loses the place when the tier is full: the hot fact that was seen least recently, of those the one with
      the fewest messages, of those the first; and only to a fact that was seen more recently. */
  lemma EvictionTakesTheWorst(facts: seq<Fact>, i: nat, now: nat, w: nat)
    requires i < |facts| && w < |facts| && w != i && !Hot(facts[i])
    requires Hot(facts[w]) && !Hot(Promoted(facts, i, now)[w])
    ensures HotCount(facts) >= 32 && facts[w].lastSeen < facts[i].lastSeen
    ensures forall h :: 0 <= h < |facts| && h != w && facts[h].hotSince.Some? ==>
              || facts[w].lastSeen < facts[h].lastSeen
              || (facts[w].lastSeen == facts[h].lastSeen && |facts[w].sources| < |facts[h].sources|)
              || (facts[w].lastSeen == facts[h].lastSeen && |facts[w].sources| == |facts[h].sources| && w < h)
  {
    hide HotCount;
  }

  // ---------- the fixpoint, from the facts before the pass ----------

  /** A fact with a claim to a hot place that the next sweep will respect. */
  predicate Lively(f: Fact, now: nat) {
    !Idle(f, now) && (Hot(f) || Mature(f, now))
  }

  function LivelyCount(facts: seq<Fact>, now: nat): (n: nat)
    ensures n <= |facts|
  {
    if facts == [] then 0
    else LivelyCount(facts[..|facts| - 1], now) + if Lively(facts[|facts| - 1], now) then 1 else 0
  }

  lemma {:induction false} AllHotAreLively(hot: seq<Fact>, facts: seq<Fact>, now: nat)
    requires |hot| == |facts| && forall i :: 0 <= i < |hot| && Hot(hot[i]) ==> Lively(facts[i], now)
    ensures HotCount(hot) <= LivelyCount(facts, now)
  {
    if hot != [] {
      AllHotAreLively(hot[..|hot| - 1], facts[..|hot| - 1], now);
    }
  }

  lemma {:induction false} AllLivelyAreHot(hot: seq<Fact>, facts: seq<Fact>, now: nat)
    requires |hot| == |facts| && forall i :: 0 <= i < |hot| && Lively(facts[i], now) ==> Hot(hot[i])
    ensures LivelyCount(facts, now) <= HotCount(hot)
    ensures (exists i :: 0 <= i < |hot| && Hot(hot[i]) && !Lively(facts[i], now)) ==>
              LivelyCount(facts, now) < HotCount(hot)
  {
    if hot != [] {
      var n := |hot| - 1;
      AllLivelyAreHot(hot[..n], facts[..n], now);
      if i :| 0 <= i < |hot| && Hot(hot[i]) && !Lively(facts[i], now) {
        if i < n {
          assert hot[..n][i] == hot[i] && facts[..n][i] == facts[i];
        }
      }
    }
  }

  /** What a pass makes of one fact. */
  lemma PassOnOne(facts: seq<Fact>, now: nat, i: nat)
    requires i < |facts|
    ensures var r := Balanced(facts, now);
            && r[i].lastSeen == facts[i].lastSeen
            && (Hot(r[i]) ==> Lively(facts[i], now) || (Candidate(facts[i], now) && Idle(facts[i], now)))
            && (!Hot(r[i]) && (Lively(facts[i], now) || Candidate(facts[i], now)) ==> Beaten(r, i))
  {
    hide PromotedAll, Within, Idle, Beaten, HotCount;
    var swept, r := SweptAll(facts, now), Balanced(facts, now);
    BalancedProgress(facts, now);
    hide Balanced;
    assert SameButHot(r[i], swept[i]) && swept[i] == Swept(facts[i], now);
    assert Candidate(swept[i], now) <==> Candidate(facts[i], now);
    assert Hot(r[i]) ==> Hot(swept[i]) || i in Candidates(swept, now);
  }

  /** The pass is not a fixpoint exactly when an idle fact has matured in the cache while fewer facts than the
      tier has places have a lively claim: then, and only then, a second pass at the same time changes something. */
  lemma RebalanceRepeatsExactly(facts: seq<Fact>, now: nat)
    ensures var r := Balanced(facts, now);
            Balanced(r, now) != r <==>
              && (exists i :: 0 <= i < |facts| && Candidate(facts[i], now) && Idle(facts[i], now))
              && LivelyCount(facts, now) < HOT_CAPACITY
  {
    hide Balanced, LivelyCount, HotCount, Candidate, Lively, Idle;
    var r := Balanced(facts, now);
    RebalanceFixpoint(facts, now);
    if i :| 0 <= i < |r| && Hot(r[i]) && Idle(r[i], now) {
      PassOnOne(facts, now, i);
      IdleHotNeedsRoom(facts, now, i);
    }
    if i :| 0 <= i < |facts| && Candidate(facts[i], now) && Idle(facts[i], now) {
      if LivelyCount(facts, now) < HOT_CAPACITY {
        RoomLetsIdleIn(facts, now, i);
      }
    }
  }

  lemma IdleHotNeedsRoom(facts: seq<Fact>, now: nat, i: nat)
    requires i < |facts| && Hot(Balanced(facts, now)[i]) && Idle(Balanced(facts, now)[i], now)
    ensures Candidate(facts[i], now) && Idle(facts[i], now) && LivelyCount(facts, now) < HOT_CAPACITY
  {
    hide Balanced, LivelyCount, HotCount, Candidate;
    var r, swept := Balanced(facts, now), SweptAll(facts, now);
    PassOnOne(facts, now, i);
    forall j | 0 <= j < |r| && Lively(facts[j], now)
      ensures Hot(r[j])
    {
      PassOnOne(facts, now, j);
    }
    AllLivelyAreHot(r, facts, now);
    HotAfterSweepIsLively(facts, now);
    CapacityKept(facts, now);
  }

  lemma HotAfterSweepIsLively(facts: seq<Fact>, now: nat)
    ensures HotCount(SweptAll(facts, now)) <= LivelyCount(facts, now)
  {
    AllHotAreLively(SweptAll(facts, now), facts, now);
  }

  lemma CapacityKept(facts: seq<Fact>, now: nat)
    ensures var r := Balanced(facts, now); HotCount(r) <= HOT_CAPACITY || HotCount(r) <= HotCount(SweptAll(facts, now))
  {
    hide HotCount, Balanced;
    BalancedProgress(facts, now);
  }

  lemma RoomLetsIdleIn(facts: seq<Fact>, now: nat, i: nat)
    requires i < |facts| && Candidate(facts[i], now) && Idle(facts[i], now) && LivelyCount(facts, now) < HOT_CAPACITY
    ensures exists k :: 0 <= k < |facts| && Hot(Balanced(facts, now)[k]) && Idle(Balanced(facts, now)[k], now)
  {
    hide Balanced, LivelyCount, HotCount, Candidate;
    var r := Balanced(facts, now);
    if forall k :: 0 <= k < |r| && Hot(r[k]) ==> !Idle(r[k], now) {
      forall k | 0 <= k < |r| && Hot(r[k])
        ensures Lively(facts[k], now)
      {
        PassOnOne(facts, now, k);
      }
      PassOnOne(facts, now, i);
      AllHotAreLively(r, facts, now);
      assert false;
    }
  }

  lemma LeftAreBeaten(swept: seq<Fact>, r: seq<Fact>, now: nat)
    requires Progress(swept, Candidates(swept, now), r)
    ensures forall k :: 0 <= k < |Candidates(r, now)| ==> Beaten(r, Candidates(r, now)[k])
  {
    hide Beaten;
    var left := Candidates(r, now);
    forall k | 0 <= k < |left|
      ensures Beaten(r, left[k])
    {
      var i := left[k];
      assert SameButHot(r[i], swept[i]);
      assert i in Candidates(swept, now) || Hot(swept[i]);
    }
  }

  lemma {:induction false} BeatenStays(facts: seq<Fact>, indices: seq<nat>, now: nat)
    requires forall k :: 0 <= k < |indices| ==> indices[k] < |facts| && Beaten(facts, indices[k])
    ensures PromotedAll(facts, indices, now) == facts
  {
    if indices != [] {
      hide Beaten, Promoted;
      var n := |indices| - 1;
      BeatenStays(facts, indices[..n], now);
      assert Beaten(facts, indices[n]);
      BeatenIsNotPromoted(facts, indices[n], now);
    }
  }

  lemma BeatenIsNotPromoted(facts: seq<Fact>, i: nat, now: nat)
    requires i < |facts| && Beaten(facts, i)
    ensures Promoted(facts, i, now) == facts
  {
    HotCountWitness(facts);
  }

  /** The condition of `RebalanceFixpoint` can fail: a cached fact that nobody mentioned for a week
      becomes hot, and the next pass at the same time drops it from both tiers. */
  lemma IdlePromotionExample()
    ensures var facts := [Fact("k", "t", [1, 2, 3], 0, 0, [], Some(0), None)];
            var now := HOT_IDLE_MS;
            && Hot(Balanced(facts, now)[0])
            && Balanced(Balanced(facts, now), now)[0] == facts[0].(cacheSince := None)
  {
    var facts := [Fact("k", "t", [1, 2, 3], 0, 0, [], Some(0), None)];
    var now := HOT_IDLE_MS;
    var hot := [facts[0].(hotSince := Some(now))];
    assert SweptAll(facts, now) == facts;
    assert facts[..0] == [] && Candidates(facts, now) == [0];
    assert Balanced(facts, now) == hot by {
      assert [0][..0] == [] && Promoted(facts, 0, now) == hot;
    }
    var cold := [facts[0].(cacheSince := None)];
    assert SweptAll(hot, now) == cold;
    assert cold[..0] == [] && Candidates(cold, now) == [];
  }

  // ---------- rebalance, in place ----------

  /** The first loop: old mentions leave the window and idle hot facts leave both tiers. */
  method Sweep(original: seq<Fact>, now: nat) returns (facts: seq<Fact>, changed: bool)
    ensures facts == SweptAll(original, now)
    ensures changed <==> facts != original
  {
    facts := original;
    changed := false;
    ghost var swept := SweptAll(original, now);
    for i := 0 to |facts|
      invariant |facts| == |original|
      invariant forall k :: 0 <= k < i ==> facts[k] == swept[k]
      invariant forall k :: i <= k < |facts| ==> facts[k] == original[k]
      invariant changed <==> facts != original
    {
      var fact := facts[i];
      var before := |fact.recent|;
      fact := fact.(recent := Within(fact.recent, now));
      changed := changed || |fact.recent| != before;
      if fact.hotSince.Some? && SaturatingSub(now, fact.lastSeen) >= HOT_IDLE_MS {
        fact := fact.(hotSince := None, cacheSince := None);
        changed := true;
      }
      assert fact == Swept(original[i], now);
      ghost var earlier := facts;
      facts := facts[i := fact];
      assert forall k :: 0 <= k < |facts| && earlier[k] != original[k] ==> facts[k] != original[k];
      assert fact != original[i] ==> facts[i] != original[i];
      assert fact == original[i] ==> facts == earlier;
    }
  }

  /** One turn of the second loop: a candidate takes a free place, or the place of the worst hot fact. */
  method PromoteOne(facts: seq<Fact>, index: nat, now: nat) returns (next: seq<Fact>, changed: bool)
    requires index < |facts| && !Hot(facts[index])
    ensures next == Promoted(facts, index, now)
    ensures changed <==> Hot(next[index])
    ensures !changed ==> next == facts
  {
    next := facts;
    var hotCount := HotCount(facts);
    var worst := Worst(facts);
    if hotCount >= HOT_CAPACITY && worst.Some? {
      if facts[worst.value].lastSeen >= facts[index].lastSeen {
        return facts, false;
      }
      next := next[worst.value := next[worst.value].(hotSince := None)];
    }
    next := next[index := next[index].(hotSince := Some(now))];
    changed := true;
  }

  /** The next candidate is not hot yet, and the facts differ from the start once one has been promoted. */
  lemma NextPromotion(start: seq<Fact>, indices: seq<nat>, n: nat, now: nat)
    requires indices == Candidates(start, now) && n < |indices|
    ensures var cur := PromotedAll(start, indices[..n], now);
            var next := Promoted(cur, indices[n], now);
            && !Hot(cur[indices[n]])
            && PromotedAll(start, indices[..n + 1], now) == next
            && (next != start <==> cur != start || Hot(next[indices[n]]))
  {
    hide Progress, Promoted, PromotedAll;
    OneMorePromoted(start, indices, n, now);
    PromotionsProgress(start, indices[..n], now);
    NotYetHot(start, indices[..n], PromotedAll(start, indices[..n], now), indices[n]);
    PromotionProgress(start, indices[..n], PromotedAll(start, indices[..n], now), indices[n], now);
  }

  lemma OneMorePromoted(start: seq<Fact>, indices: seq<nat>, n: nat, now: nat)
    requires n < |indices| && forall k :: 0 <= k < |indices| ==> indices[k] < |start|
    ensures PromotedAll(start, indices[..n + 1], now) ==
              Promoted(PromotedAll(start, indices[..n], now), indices[n], now)
  {
    hide Promoted;
    var done := indices[..n + 1];
    assert done[..n] == indices[..n];
  }

  lemma NotYetHot(start: seq<Fact>, done: seq<nat>, cur: seq<Fact>, i: nat)
    requires Progress(start, done, cur) && i < |start| && !Hot(start[i]) && i !in done
    ensures |cur| == |start| && !Hot(cur[i])
  {
  }

  /** The second loop. */
  method Promote(start: seq<Fact>, candidates: seq<nat>, now: nat) returns (facts: seq<Fact>, changed: bool)
    requires candidates == Candidates(start, now)
    ensures facts == PromotedAll(start, candidates, now)
    ensures changed <==> facts != start
  {
    facts := start;
    changed := false;
    for n := 0 to |candidates|
      invariant facts == PromotedAll(start, candidates[..n], now)
      invariant changed <==> facts != start
    {
      NextPromotion(start, candidates, n, now);
      var promoted;
      facts, promoted := PromoteOne(facts, candidates[n], now);
      changed := changed || promoted;
    }
    assert candidates[..|candidates|] == candidates;
  }

  method Rebalance(m: Memory, now: nat) returns (next: Memory, changed: bool)
    ensures next == Rebalanced(m, now)
    ensures changed <==> next.facts != m.facts
    ensures next.revision == m.revision + if changed then 1 else 0
  {
    hide SweptAll, Candidates, PromotedAll;
    var swept, demoted := Sweep(m.facts, now);
    var facts, promoted := Promote(swept, Candidates(swept, now), now);
    changed := demoted || promoted;
    BalancedSameExactly(m.facts, now);
    next := m.(facts := facts);
    if changed {
      next := next.(revision := next.revision + 1);
    }
  }
}
