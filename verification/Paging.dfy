/** Paged reads of a turn's history agree with the snapshot that the turn was sent with, although the rooms
    keep growing while the turn reads them. */
module Paging {
  import opened Options
  import opened Rooms

  // ---------- growth ----------

  /** A room later on: the same identity, and only messages with ids from `bound` on were added. */
  predicate Continues(a: Room, b: Room, bound: nat) {
    && (b.id, b.name, b.members, b.incognito) == (a.id, a.name, a.members, a.incognito)
    && a.messages <= b.messages
    && forall k :: |a.messages| <= k < |b.messages| ==> b.messages[k].id >= bound
  }

  predicate Grows(rooms: Rooms, bound: nat, later: Rooms) {
    forall r :: r in rooms ==> r in later && Continues(rooms[r], later[r], bound)
  }

  lemma GrowsTransitive(a: Rooms, x: nat, b: Rooms, y: nat, c: Rooms)
    requires Grows(a, x, b) && Grows(b, y, c) && x <= y
    ensures Grows(a, x, c)
  {
    forall r | r in a
      ensures r in c && Continues(a[r], c[r], x)
    {
      assert Continues(a[r], b[r], x) && Continues(b[r], c[r], y);
      forall k | |a[r].messages| <= k < |c[r].messages|
        ensures c[r].messages[k].id >= x
      {
        assert k < |b[r].messages| ==> c[r].messages[k] == b[r].messages[k];
      }
    }
  }

  /** What was below the bound then is all that is below the bound later. */
  lemma OldMessages(a: Room, b: Room, bound: nat, m: Message)
    requires Continues(a, b, bound)
    ensures m in a.messages ==> m in b.messages
    ensures m in b.messages && m.id < bound ==> m in a.messages
  {
    if m in b.messages && m.id < bound {
      var k :| 0 <= k < |b.messages| && b.messages[k] == m;
      assert a.messages[k] == m;
    }
    if m in a.messages {
      var k :| 0 <= k < |a.messages| && a.messages[k] == m;
      assert b.messages[k] == m;
    }
  }

  // ---------- one read ----------

  predicate InScope(q: ContextQuery, c: ContextMessage) {
    (q.scopeAll || c.room == q.room) && (q.before.None? || c.id < q.before.value)
  }

  /** A snapshot of the rooms, and the rooms at a later moment. */
  predicate Moments(rooms: Rooms, bound: nat, later: Rooms, laterBound: nat) {
    RoomsOk(rooms, bound) && RoomsOk(later, laterBound) && Grows(rooms, bound, later)
  }

  /** A query that a turn makes about the context that it was sent with. */
  predicate AboutTurn(q: ContextQuery, rooms: Rooms, start: Option<nat>) {
    && q.room in rooms
    && q.visibleThrough == VisibleThrough(TurnContext(rooms, q.requester, q.room, start))
  }

  /** A context contains a message of room `r` only if the turn could read `r`. */
  lemma ContextSource(rooms: Rooms, bound: nat, member: string, id: nat, start: Option<nat>,
                      c: ContextMessage) returns (m: Message)
    requires RoomsOk(rooms, bound) && id in rooms && c in TurnContext(rooms, member, id, start)
    ensures c.room in Readable(rooms, member, id) && m in rooms[c.room].messages && m.id == c.id < bound
    ensures TurnFilter(id, start)(c.room, m) && c == InContext(rooms[c.room], m)
  {
    var read := Readable(rooms, member, id);
    CollectedLists(read, TurnFilter(id, start), c);
    var r;
    r, m :| r in read && m in read[r].messages && TurnFilter(id, start)(read[r].id, m) && c == InContext(read[r], m);
    assert RoomOk(r, rooms[r], bound);
  }

  lemma MatchingSource(rooms: Rooms, bound: nat, q: ContextQuery, c: ContextMessage) returns (m: Message)
    requires RoomsOk(rooms, bound) && q.room in rooms && c in Matching(rooms, q)
    ensures c.room in Readable(rooms, q.requester, q.room) && m in rooms[c.room].messages && m.id == c.id
    ensures QueryFilter(q)(c.room, m) && c == InContext(rooms[c.room], m)
  {
    var read := Readable(rooms, q.requester, q.room);
    CollectedLists(read, QueryFilter(q), c);
    var r;
    r, m :| r in read && m in read[r].messages && QueryFilter(q)(read[r].id, m) && c == InContext(read[r], m);
    assert RoomOk(r, rooms[r], bound);
  }

  lemma MatchingWasSent(rooms: Rooms, bound: nat, later: Rooms, laterBound: nat, start: Option<nat>,
                        q: ContextQuery, c: ContextMessage)
    requires Moments(rooms, bound, later, laterBound) && AboutTurn(q, rooms, start)
    requires q.room in later && c in Matching(later, q)
    ensures c in TurnContext(rooms, q.requester, q.room, start) && InScope(q, c)
  {
    hide TurnContext, Matching, VisibleThrough, RoomsOk;
    var context := TurnContext(rooms, q.requester, q.room, start);
    assert Continues(rooms[q.room], later[q.room], bound);
    var m := MatchingSource(later, laterBound, q, c);
    VisibleThroughIsMax(context);
    var d :| d in context && d.room == c.room && d.id == q.visibleThrough[c.room];
    var n := ContextSource(rooms, bound, q.requester, q.room, start, d);
    var r := c.room;
    assert Continues(rooms[r], later[r], bound);
    OldMessages(rooms[r], later[r], bound, m);
    InTurnContext(rooms, bound, q.requester, q.room, start, r, m);
  }

  lemma InTurnContext(rooms: Rooms, bound: nat, member: string, id: nat, start: Option<nat>, r: nat, m: Message)
    requires RoomsOk(rooms, bound) && id in rooms && r in Readable(rooms, member, id) && m in rooms[r].messages
    requires TurnFilter(id, start)(r, m)
    ensures InContext(rooms[r], m) in TurnContext(rooms, member, id, start)
  {
    var read, keep, c := Readable(rooms, member, id), TurnFilter(id, start), InContext(rooms[r], m);
    assert RoomOk(r, rooms[r], bound);
    assert m in read[r].messages && keep(read[r].id, m) && c == InContext(read[r], m);
    CollectedLists(read, keep, c);
  }

  lemma InMatching(rooms: Rooms, bound: nat, q: ContextQuery, r: nat, m: Message)
    requires RoomsOk(rooms, bound) && q.room in rooms && r in Readable(rooms, q.requester, q.room)
    requires m in rooms[r].messages
    requires QueryFilter(q)(r, m)
    ensures InContext(rooms[r], m) in Matching(rooms, q)
  {
    var read, keep, c := Readable(rooms, q.requester, q.room), QueryFilter(q), InContext(rooms[r], m);
    assert RoomOk(r, rooms[r], bound);
    assert m in read[r].messages && keep(read[r].id, m) && c == InContext(read[r], m);
    CollectedLists(read, keep, c);
  }

  lemma SentIsMatching(rooms: Rooms, bound: nat, later: Rooms, laterBound: nat, start: Option<nat>,
                       q: ContextQuery, c: ContextMessage)
    requires Moments(rooms, bound, later, laterBound) && AboutTurn(q, rooms, start)
    requires c in TurnContext(rooms, q.requester, q.room, start) && InScope(q, c)
    ensures q.room in later && c in Matching(later, q)
  {
    var m := ContextSource(rooms, bound, q.requester, q.room, start, c);
    VisibleThroughIsMax(TurnContext(rooms, q.requester, q.room, start));
    hide TurnContext, Matching, VisibleThrough, RoomsOk;
    var r := c.room;
    assert Continues(rooms[q.room], later[q.room], bound) && Continues(rooms[r], later[r], bound);
    OldMessages(rooms[r], later[r], bound, m);
    InMatching(later, laterBound, q, r, m);
  }

  // ---------- pages ----------

  /** The part of a context that a read with this scope can see. */
  function Scoped(context: seq<ContextMessage>, all: bool, room: nat): (r: seq<ContextMessage>)
    ensures forall c :: c in r <==> c in context && (all || c.room == room)
    ensures all ==> r == context
  {
    if context == [] then [] else
    var front, last := context[..|context| - 1], context[|context| - 1];
    assert forall c :: c in context <==> c in front || c == last;
    assert context == front + [last];
    Scoped(front, all, room) + if all || last.room == room then [last] else []
  }

  lemma {:induction false} ScopedStrictly(context: seq<ContextMessage>, all: bool, room: nat)
    requires StrictlySorted(context)
    ensures StrictlySorted(Scoped(context, all, room))
  {
    if context != [] {
      var front, last := context[..|context| - 1], context[|context| - 1];
      ScopedStrictly(front, all, room);
      var r := Scoped(front, all, room);
      assert forall k :: 0 <= k < |r| ==> r[k] in r && r[k] in front;
      assert forall c :: c in front ==> c.id < last.id;
    }
  }

  /** Where the next page ends: before the element `k`, or at the end. */
  function CursorAt(s: seq<ContextMessage>, k: nat): Option<nat>
    requires k <= |s|
  {
    if k == |s| then None else Some(s[k].id)
  }

  /** A read that ends before element `k` of the visible history matches exactly the elements before `k`. */
  lemma MatchingIsPrefix(rooms: Rooms, bound: nat, later: Rooms, laterBound: nat, start: Option<nat>,
                         q: ContextQuery, history: seq<ContextMessage>, k: nat)
    requires Moments(rooms, bound, later, laterBound) && AboutTurn(q, rooms, start)
    requires history == Scoped(TurnContext(rooms, q.requester, q.room, start), q.scopeAll, q.room)
    requires k <= |history| && q.before == CursorAt(history, k)
    ensures q.room in later && StrictlySorted(history) && Matching(later, q) == history[..k]
    ensures (later[q.room].name, later[q.room].members) == (rooms[q.room].name, rooms[q.room].members)
  {
    hide RoomsOk, VisibleThrough, CursorAt;
    var context := TurnContext(rooms, q.requester, q.room, start);
    assert Continues(rooms[q.room], later[q.room], bound);
    ReadableOk(rooms, bound, q.requester, q.room);
    ReadableOk(later, laterBound, q.requester, q.room);
    CollectedStrictly(Readable(rooms, q.requester, q.room), TurnFilter(q.room, start), bound);
    CollectedStrictly(Readable(later, q.requester, q.room), QueryFilter(q), laterBound);
    ScopedStrictly(context, q.scopeAll, q.room);
    forall c
      ensures c in history[..k] <==> c in Matching(later, q)
    {
      PrefixByCursor(history, k, c);
      if c in Matching(later, q) {
        MatchingWasSent(rooms, bound, later, laterBound, start, q, c);
      }
      if c in history[..k] {
        SentIsMatching(rooms, bound, later, laterBound, start, q, c);
      }
    }
    SameElementsSameSequence(history[..k], Matching(later, q));
  }

  lemma PrefixByCursor(s: seq<ContextMessage>, k: nat, c: ContextMessage)
    requires StrictlySorted(s) && k <= |s|
    ensures c in s[..k] <==> c in s && (CursorAt(s, k).None? || c.id < CursorAt(s, k).value)
  {
    if c in s {
      var i :| 0 <= i < |s| && s[i] == c;
      assert i < k ==> s[..k][i] == c;
    }
  }

  lemma ReadableOk(rooms: Rooms, bound: nat, member: string, id: nat)
    requires RoomsOk(rooms, bound) && id in rooms
    ensures RoomsOk(Readable(rooms, member, id), bound)
  {
    hide RoomOk, Apart;
  }

  /** One page: the last `limit` elements before `k`, and a cursor to what is before them. */
  lemma PageIsSlice(rooms: Rooms, bound: nat, later: Rooms, laterBound: nat, start: Option<nat>,
                    q: ContextQuery, history: seq<ContextMessage>, k: nat)
    requires Moments(rooms, bound, later, laterBound) && AboutTurn(q, rooms, start)
    requires history == Scoped(TurnContext(rooms, q.requester, q.room, start), q.scopeAll, q.room)
    requires k <= |history| && q.before == CursorAt(history, k) && q.limit >= 1 && q.requester in rooms[q.room].members
    ensures var low := if k > q.limit then k - q.limit else 0;
            ChatContextFor(later, q) ==
              Page(rooms[q.room].name, history[low..k], k > q.limit,
                   if k > q.limit then CursorAt(history, low) else None)
  {
    hide Moments, AboutTurn, Matching, Scoped, TurnContext, CursorAt, LastPage, VisibleThrough;
    MatchingIsPrefix(rooms, bound, later, laterBound, start, q, history, k);
    LastPageOfPrefix(later[q.room].name, history, k, q.limit);
  }

  lemma LastPageOfPrefix(name: string, history: seq<ContextMessage>, k: nat, limit: nat)
    requires k <= |history| && limit >= 1
    ensures var low := if k > limit then k - limit else 0;
            LastPage(name, history[..k], limit) ==
              Page(name, history[low..k], k > limit, if k > limit then CursorAt(history, low) else None)
  {
    if k > limit {
      assert history[..k][k - limit..] == history[k - limit..k];
    } else {
      assert history[..k] == history[0..k];
    }
  }

  // ---------- following the pages ----------

  /** The replies that a turn gets when it follows `nextBefore`, each from the rooms of its own moment. */
  predicate Chain(moments: seq<Rooms>, pages: seq<ContextReply>, q: ContextQuery) {
    |moments| == |pages| && forall j :: 0 <= j < |pages| ==> Follows(moments, pages, q, j)
  }

  predicate Follows(moments: seq<Rooms>, pages: seq<ContextReply>, q: ContextQuery, j: nat)
    requires j < |pages| == |moments|
  {
    && (j > 0 ==> pages[j - 1].Page? && pages[j - 1].hasEarlier)
    && pages[j] == ChatContextFor(moments[j], q.(before := if j == 0 then None else pages[j - 1].nextBefore))
  }

  /** The pages put together, oldest first. */
  function Assembled(pages: seq<ContextReply>): seq<ContextMessage>
    requires forall j :: 0 <= j < |pages| ==> pages[j].Page?
  {
    if pages == [] then [] else pages[|pages| - 1].messages + Assembled(pages[..|pages| - 1])
  }

  ghost predicate IsLater(rooms: Rooms, bound: nat, later: Rooms) {
    exists laterBound :: Moments(rooms, bound, later, laterBound)
  }

  ghost predicate AllLater(rooms: Rooms, bound: nat, moments: seq<Rooms>) {
    forall j :: 0 <= j < |moments| ==> IsLater(rooms, bound, moments[j])
  }

  /** After these pages: everything from element `k` on has been read, and at least one element per page. */
  predicate ReadFrom(pages: seq<ContextReply>, history: seq<ContextMessage>, k: nat) {
    && (forall j :: 0 <= j < |pages| ==> pages[j].Page?)
    && k <= |history| && Assembled(pages) == history[k..]
    && (pages == [] ==> k == |history|)
    && (pages != [] ==> var last := pages[|pages| - 1];
          && (last.hasEarlier <==> k > 0)
          && (last.hasEarlier ==> last.nextBefore == CursorAt(history, k) && |pages| + k <= |history|))
  }

  lemma {:induction false} ChainReads(rooms: Rooms, bound: nat, start: Option<nat>, q: ContextQuery,
                                      moments: seq<Rooms>, pages: seq<ContextReply>, history: seq<ContextMessage>)
    returns (k: nat)
    requires RoomsOk(rooms, bound) && AboutTurn(q, rooms, start) && q.requester in rooms[q.room].members && q.limit >= 1
    requires history == Scoped(TurnContext(rooms, q.requester, q.room, start), q.scopeAll, q.room)
    requires AllLater(rooms, bound, moments) && Chain(moments, pages, q)
    ensures ReadFrom(pages, history, k)
  {
    hide Scoped, TurnContext, AllLater, RoomsOk, VisibleThrough;
    if pages == [] {
      k := |history|;
    } else {
      AllLaterPrefix(rooms, bound, moments);
      ChainPrefix(moments, pages, q);
      var n := |pages| - 1;
      var j := ChainReads(rooms, bound, start, q, moments[..n], pages[..n], history);
      assert n > 0 ==> pages[..n][n - 1] == pages[n - 1];
      NextPage(rooms, bound, start, q, moments, pages, history, j);
      k := ReadMore(pages, history, j, q.limit, rooms[q.room].name);
    }
  }

  lemma ReadMore(pages: seq<ContextReply>, history: seq<ContextMessage>, j: nat, limit: nat,
                 name: string) returns (k: nat)
    requires pages != [] && limit >= 1 && ReadFrom(pages[..|pages| - 1], history, j)
    requires |pages| > 1 ==> pages[|pages| - 2].Page? && pages[|pages| - 2].hasEarlier
    requires var low := if j > limit then j - limit else 0;
             pages[|pages| - 1] ==
               Page(name, history[low..j], j > limit, if j > limit then CursorAt(history, low) else None)
    ensures ReadFrom(pages, history, k)
  {
    var n := |pages| - 1;
    k := if j > limit then j - limit else 0;
    assert forall i :: 0 <= i < n ==> pages[..n][i] == pages[i];
    assert history[k..j] + history[j..] == history[k..];
  }

  lemma AllLaterPrefix(rooms: Rooms, bound: nat, moments: seq<Rooms>)
    requires AllLater(rooms, bound, moments) && moments != []
    ensures AllLater(rooms, bound, moments[..|moments| - 1])
  {
    hide IsLater;
  }

  lemma ChainPrefix(moments: seq<Rooms>, pages: seq<ContextReply>, q: ContextQuery)
    requires Chain(moments, pages, q) && pages != []
    ensures |moments| == |pages| && Chain(moments[..|pages| - 1], pages[..|pages| - 1], q)
    ensures |pages| > 1 ==> pages[|pages| - 2].Page? && pages[|pages| - 2].hasEarlier
  {
    var n := |pages| - 1;
    forall i | 0 <= i < n
      ensures Follows(moments[..n], pages[..n], q, i)
    {
      assert Follows(moments, pages, q, i);
    }
    assert Follows(moments, pages, q, n);
  }

  lemma NextPage(rooms: Rooms, bound: nat, start: Option<nat>, q: ContextQuery,
                 moments: seq<Rooms>, pages: seq<ContextReply>, history: seq<ContextMessage>, j: nat)
    requires RoomsOk(rooms, bound) && AboutTurn(q, rooms, start) && q.requester in rooms[q.room].members && q.limit >= 1
    requires history == Scoped(TurnContext(rooms, q.requester, q.room, start), q.scopeAll, q.room)
    requires AllLater(rooms, bound, moments) && Chain(moments, pages, q) && pages != []
    requires |pages| > 1 ==> pages[|pages| - 2].Page?
    requires j <= |history| && (if |pages| == 1 then None else pages[|pages| - 2].nextBefore) == CursorAt(history, j)
    ensures var low := if j > q.limit then j - q.limit else 0;
            pages[|pages| - 1] ==
              Page(rooms[q.room].name, history[low..j], j > q.limit,
                   if j > q.limit then CursorAt(history, low) else None)
  {
    hide TurnContext, Scoped, Moments, ChatContextFor, RoomsOk;
    var n := |pages| - 1;
    assert IsLater(rooms, bound, moments[n]) && Follows(moments, pages, q, n);
    var laterBound :| Moments(rooms, bound, moments[n], laterBound);
    PageIsSlice(rooms, bound, moments[n], laterBound, start, q.(before := CursorAt(history, j)), history, j);
  }

  /** Following the cursor until there is nothing earlier gives back, page by page and oldest first, exactly
      the context that the turn was sent with (or its own-room part), with no gap and no duplicate, while the
      rooms grow between the pages. */
  lemma PagedReadsEqualSnapshot(rooms: Rooms, bound: nat, start: Option<nat>, q: ContextQuery,
                                moments: seq<Rooms>, pages: seq<ContextReply>)
    requires RoomsOk(rooms, bound) && AboutTurn(q, rooms, start) && q.requester in rooms[q.room].members && q.limit >= 1
    requires AllLater(rooms, bound, moments) && Chain(moments, pages, q) && pages != []
    ensures forall j :: 0 <= j < |pages| ==> pages[j].Page?
    ensures var context := TurnContext(rooms, q.requester, q.room, start);
            && (!pages[|pages| - 1].hasEarlier ==> Assembled(pages) == Scoped(context, q.scopeAll, q.room))
            && (!pages[|pages| - 1].hasEarlier && q.scopeAll ==> Assembled(pages) == context)
            && |pages| <= |context| + 1
  {
    var context := TurnContext(rooms, q.requester, q.room, start);
    var history := Scoped(context, q.scopeAll, q.room);
    ScopedLength(context, q.scopeAll, q.room);
    var k := ChainReads(rooms, bound, start, q, moments, pages, history);
    hide TurnContext, Moments, ChatContextFor, RoomsOk;
    ChainIsShort(rooms, bound, start, q, moments, pages, history);
  }

  lemma ChainIsShort(rooms: Rooms, bound: nat, start: Option<nat>, q: ContextQuery,
                     moments: seq<Rooms>, pages: seq<ContextReply>, history: seq<ContextMessage>)
    requires RoomsOk(rooms, bound) && AboutTurn(q, rooms, start) && q.requester in rooms[q.room].members && q.limit >= 1
    requires history == Scoped(TurnContext(rooms, q.requester, q.room, start), q.scopeAll, q.room)
    requires AllLater(rooms, bound, moments) && Chain(moments, pages, q) && pages != []
    ensures |pages| <= |history| + 1
  {
    hide TurnContext, Moments, ChatContextFor, RoomsOk, Scoped;
    var n := |pages| - 1;
    ChainPrefix(moments, pages, q);
    var k := ChainReads(rooms, bound, start, q, moments[..n], pages[..n], history);
  }

  lemma {:induction false} ScopedLength(context: seq<ContextMessage>, all: bool, room: nat)
    ensures |Scoped(context, all, room)| <= |context|
  {
    if context != [] {
      ScopedLength(context[..|context| - 1], all, room);
    }
  }
}
