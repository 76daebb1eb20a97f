/** What the steps that write into a room do there, in every reachable state: nothing that was said is lost. */
module Effects {
  import opened Options
  import opened Rooms
  import opened Paging
  import opened ChatOps
  import opened Coordinator
  import opened Invariants
  import opened Preservation
  import opened Runs
  import opened Stages
  import Mentions
  import Text

  /** The room has one message more. */
  predicate Gained(st: Store, later: Store, id: nat, m: Message) {
    && id in st.rooms && id in later.rooms
    && later.rooms[id].messages == st.rooms[id].messages + [m] && later.rooms[id].lastActivity == m.createdAt
    && (later.rooms[id].id, later.rooms[id].name, later.rooms[id].members, later.rooms[id].incognito)
       == (st.rooms[id].id, st.rooms[id].name, st.rooms[id].members, st.rooms[id].incognito)
    && later.rooms[id].archived == st.rooms[id].archived
    && later.rooms[id].sleepGeneration == st.rooms[id].sleepGeneration
    && m.id == st.nextMessage && later.nextMessage == st.nextMessage + 1
    && forall r :: r in st.rooms && r != id ==> r in later.rooms && later.rooms[r] == st.rooms[r]
  }

  lemma PushGains(st: Store, id: nat, role: string, author: string, text: string, media: seq<Asset>, now: nat)
    requires id in st.rooms
    ensures Gained(st, Pushed(st, id, role, author, text, media, now), id,
                   NewMessage(st, role, author, text, media, now))
  {
    hide Views;
  }

  /** A result counts as an answer if the turn completed and there is something to show. */
  predicate IsAnAnswer(result: TurnResult) {
    result.completed && ((result.response.Some? && !Text.IsBlank(result.response.value)) || result.attachments != [])
  }

  predicate IsPosted(ask: Ask, result: TurnResult, m: Message, alphanumeric: char -> bool) {
    && m.author == ask.member && m.media == result.attachments && m.attachments == Views(result.attachments)
    && m.text == (if result.response.Some? && !Text.IsBlank(result.response.value) then result.response.value
                  else "\U{5DF2}\U{53D1}\U{9001}\U{9644}\U{4EF6}")
    && m.role == if ask.kind != Direct && Mentions.MentionsUser(m.text, alphanumeric) then "summary" else "agent"
  }

  /** When a turn settles, it posts the member's own words and attachments in its room, and the round gets the
      same text; a result without an answer posts nothing, and the turn has failed. */
  lemma SettlePosts(s: State, a: AskId, now: nat, alphanumeric: char -> bool, result: TurnResult)
    requires a in s.asks && s.asks[a].stage.Requested? && s.asks[a].stage.sent && s.asks[a].stage.reply == Some(result)
    requires s.asks[a].room in s.store.rooms
    ensures var ask, later := s.asks[a], Step(s, Settle(a, now), alphanumeric);
            && a in later.asks
            && (IsAnAnswer(result) ==>
                  exists m :: Gained(s.store, later.store, ask.room, m) && IsPosted(ask, result, m, alphanumeric)
                              && m.createdAt == now && later.asks[a].stage == Settled(Answered(m.text)))
            && (!IsAnAnswer(result) ==> later.store == s.store && later.asks[a].stage == Settled(Failed))
  {
    hide Pushed, Views, Text.IsBlank, Mentions.MentionsUser, Gained;
    if AnswerText(result).Some? {
      var ask, text := s.asks[a], AnswerText(result).value;
      var role := Role(ask.kind, text, alphanumeric);
      PushGains(s.store, ask.room, role, ask.member, text, result.attachments, now);
      var m := NewMessage(s.store, role, ask.member, text, result.attachments, now);
      assert IsPosted(ask, result, m, alphanumeric);
    }
  }

  /** A turn that failed is joined with an error message in its room. */
  lemma FailurePosts(s: State, a: AskId, now: nat, note: string, alphanumeric: char -> bool)
    requires a in s.asks && s.asks[a].stage == Returned(Failed) && a.run in s.runs && s.asks[a].room in s.store.rooms
    ensures var later := Step(s, Join(a, now, note), alphanumeric);
            exists m :: Gained(s.store, later.store, s.asks[a].room, m)
                        && (m.role, m.author, m.text, m.createdAt) == ("error", "\U{7CFB}\U{7EDF}", note, now)
  {
    hide Pushed, Gained;
    PushGains(s.store, s.asks[a].room, "error", SYSTEM, note, [], now);
  }

  // ---------- whole runs ----------

  /** A message with this answer, newer than `bound`, is in the room of the turn. */
  ghost predicate AnswerIsIn(rooms: Rooms, bound: nat, ask: Ask, result: TurnResult, alphanumeric: char -> bool) {
    ask.room in rooms
    && exists m :: m in rooms[ask.room].messages && m.id >= bound && IsPosted(ask, result, m, alphanumeric)
  }

  lemma GainedIsLast(st: Store, later: Store, id: nat, m: Message)
    requires Gained(st, later, id, m)
    ensures m in later.rooms[id].messages && m.id == st.nextMessage
  {
  }

  lemma StaysIn(st: Store, later: Store, id: nat, m: Message)
    requires Later(st, later) && id in st.rooms && m in st.rooms[id].messages
    ensures id in later.rooms && m in later.rooms[id].messages
  {
    assert Continues(st.rooms[id], later.rooms[id], st.nextMessage);
    OldMessages(st.rooms[id], later.rooms[id], st.nextMessage, m);
  }

  lemma AnswerStaysIn(st: Store, later: Store, bound: nat, ask: Ask, after: Ask, result: TurnResult,
                      alphanumeric: char -> bool)
    requires Later(st, later) && SameTurn(ask, after) && AnswerIsIn(st.rooms, bound, ask, result, alphanumeric)
    ensures AnswerIsIn(later.rooms, bound, after, result, alphanumeric)
  {
    hide Later;
    var m :| m in st.rooms[ask.room].messages && m.id >= bound && IsPosted(ask, result, m, alphanumeric);
    StaysIn(st, later, ask.room, m);
    assert IsPosted(after, result, m, alphanumeric);
  }

  lemma WaitingGoesOn(before: Stage, after: Stage, e: Event, a: AskId)
    requires before.Requested? && before.sent && before.reply.Some? && Goes(before, after, e, a)
    ensures e.Settle? && e.ask == a
  {
  }

  /** A reply that a delivered request has got is never lost: at every later moment its turn still has it, or the
      member's own words and attachments are in the room of the turn, in a message that is newer than the reply,
      and stay there. */
  lemma {:induction false} RepliesReachTheirRooms(start: State, events: seq<Event>, k: nat, n: nat,
                                                  alphanumeric: char -> bool, a: AskId, result: TurnResult)
    requires Started(start) && k <= n <= |events| && IsAnAnswer(result)
    requires var asks := After(start, events, k, alphanumeric).asks;
             a in asks && asks[a].stage.Requested? && asks[a].stage.sent && asks[a].stage.reply == Some(result)
    ensures var s, now := After(start, events, k, alphanumeric), After(start, events, n, alphanumeric);
            && a in now.asks
            && (now.asks[a].stage == s.asks[a].stage
                || AnswerIsIn(now.store.rooms, s.store.nextMessage, now.asks[a], result, alphanumeric))
  {
    hide Step, StoreInv, RunInv, AskInv, LockInv, PendingInv, AnswersInv, SleepInv, Started, TakesContext, AskFits,
         AnswerIsIn, IsAnAnswer, Goes, Later, Looked;
    if k < n {
      var s, now := After(start, events, n - 1, alphanumeric), After(start, events, n, alphanumeric);
      var e, bound := events[n - 1], After(start, events, k, alphanumeric).store.nextMessage;
      RepliesReachTheirRooms(start, events, k, n - 1, alphanumeric, a, result);
      ReachableInv(start, events, n - 1, alphanumeric);
      StepTurns(s, e, alphanumeric);
      StepIsLater(s, e, alphanumeric);
      TurnsGoOn(s, e, alphanumeric, a);
      CounterOfRun(start, events, k, n - 1, alphanumeric);
      if AnswerIsIn(s.store.rooms, bound, s.asks[a], result, alphanumeric) {
        AnswerStaysIn(s.store, now.store, bound, s.asks[a], now.asks[a], result, alphanumeric);
      } else if now.asks[a].stage != s.asks[a].stage {
        WaitingGoesOn(s.asks[a].stage, now.asks[a].stage, e, a);
        TurnRoom(s, a);
        SettledIsIn(s, now, a, e.now, alphanumeric, result, bound);
      }
    }
  }

  lemma SettledIsIn(s: State, later: State, a: AskId, now: nat, alphanumeric: char -> bool, result: TurnResult,
                    bound: nat)
    requires a in s.asks && s.asks[a].stage.Requested? && s.asks[a].stage.sent && s.asks[a].stage.reply == Some(result)
    requires s.asks[a].room in s.store.rooms && IsAnAnswer(result) && bound <= s.store.nextMessage
    requires later == Step(s, Settle(a, now), alphanumeric) && a in later.asks && SameTurn(s.asks[a], later.asks[a])
    ensures AnswerIsIn(later.store.rooms, bound, later.asks[a], result, alphanumeric)
  {
    hide Step, Gained, IsAnAnswer, Views, Text.IsBlank, Mentions.MentionsUser;
    SettlePosts(s, a, now, alphanumeric, result);
    var m :| Gained(s.store, later.store, s.asks[a].room, m) && IsPosted(s.asks[a], result, m, alphanumeric);
    GainedIsLast(s.store, later.store, s.asks[a].room, m);
    GainedRoom(s.store, later.store, s.asks[a].room, m);
    assert IsPosted(later.asks[a], result, m, alphanumeric);
  }

  lemma GainedRoom(st: Store, later: Store, id: nat, m: Message)
    requires Gained(st, later, id, m)
    ensures id in later.rooms
  {
  }

  lemma CounterOfRun(start: State, events: seq<Event>, k: nat, n: nat, alphanumeric: char -> bool)
    requires Started(start) && k <= n <= |events|
    ensures var s, now := After(start, events, k, alphanumeric), After(start, events, n, alphanumeric);
            s.store.nextMessage <= now.store.nextMessage
  {
    hide Step, Started, Grows;
    RunIsLater(start, events, k, n, alphanumeric);
  }

  /** The turn has not answered, and its failure has not been shown. */
  predicate Unheard(stage: Stage) {
    stage != Joined && !((stage.Settled? || stage.Returned?) && stage.outcome.Answered?)
  }

  predicate SpeaksFor(m: Message, ask: Ask) {
    ((m.role == "agent" || m.role == "summary") && m.author == ask.member) || (m.role == "error" && m.author == SYSTEM)
  }

  ghost predicate HeardIn(rooms: Rooms, bound: nat, ask: Ask) {
    ask.room in rooms && exists m :: m in rooms[ask.room].messages && m.id >= bound && SpeaksFor(m, ask)
  }

  lemma HeardStays(st: Store, later: Store, bound: nat, ask: Ask, after: Ask)
    requires Later(st, later) && SameTurn(ask, after) && HeardIn(st.rooms, bound, ask)
    ensures HeardIn(later.rooms, bound, after)
  {
    hide Later;
    var m :| m in st.rooms[ask.room].messages && m.id >= bound && SpeaksFor(m, ask);
    StaysIn(st, later, ask.room, m);
    assert SpeaksFor(m, after);
  }

  lemma UnheardGoesOn(before: Stage, after: Stage, e: Event, a: AskId)
    requires Unheard(before) && !Unheard(after) && Goes(before, after, e, a)
    ensures || (e.Settle? && e.ask == a && before.Requested? && before.sent && before.reply.Some?
                && after != Settled(Failed))
            || (e.Join? && e.ask == a && before == Returned(Failed))
  {
  }

  lemma BecomesHeard(s: State, e: Event, alphanumeric: char -> bool, a: AskId, bound: nat)
    requires a in s.asks && s.asks[a].room in s.store.rooms && a.run in s.runs && bound <= s.store.nextMessage
    requires var later := Step(s, e, alphanumeric);
             && a in later.asks && SameTurn(s.asks[a], later.asks[a])
             && Unheard(s.asks[a].stage) && !Unheard(later.asks[a].stage)
             && Goes(s.asks[a].stage, later.asks[a].stage, e, a)
    ensures var later := Step(s, e, alphanumeric); HeardIn(later.store.rooms, bound, later.asks[a])
  {
    hide Step, Gained, Views, Text.IsBlank, Mentions.MentionsUser, Goes, IsAnAnswer, Unheard;
    var later := Step(s, e, alphanumeric);
    var ask := s.asks[a];
    UnheardGoesOn(ask.stage, later.asks[a].stage, e, a);
    if e.Settle? {
      var result := ask.stage.reply.value;
      SettlePosts(s, a, e.now, alphanumeric, result);
      var m :| Gained(s.store, later.store, ask.room, m) && IsPosted(ask, result, m, alphanumeric);
      GainedIsLast(s.store, later.store, ask.room, m);
      GainedRoom(s.store, later.store, ask.room, m);
      assert SpeaksFor(m, later.asks[a]);
    } else {
      FailurePosts(s, a, e.now, e.note, alphanumeric);
      var m :| Gained(s.store, later.store, ask.room, m) && (m.role, m.author, m.text) == ("error", SYSTEM, e.note);
      GainedIsLast(s.store, later.store, ask.room, m);
      GainedRoom(s.store, later.store, ask.room, m);
      assert SpeaksFor(m, later.asks[a]);
    }
  }

  /** No turn ends silently: once a turn is joined, its room has got a reply of its member or an error message,
      newer than any moment at which the turn had not answered yet. */
  lemma {:induction false} NoTurnEndsSilently(start: State, events: seq<Event>, k: nat, n: nat,
                                              alphanumeric: char -> bool, a: AskId)
    requires Started(start) && k <= n <= |events|
    requires var asks := After(start, events, k, alphanumeric).asks; a in asks && Unheard(asks[a].stage)
    ensures var s, now := After(start, events, k, alphanumeric), After(start, events, n, alphanumeric);
            && a in now.asks
            && (Unheard(now.asks[a].stage) || HeardIn(now.store.rooms, s.store.nextMessage, now.asks[a]))
            && (now.asks[a].stage == Joined ==> HeardIn(now.store.rooms, s.store.nextMessage, now.asks[a]))
  {
    hide Step, StoreInv, RunInv, AskInv, LockInv, PendingInv, AnswersInv, SleepInv, Started, TakesContext, AskFits,
         HeardIn, Goes, Later, Looked;
    if k < n {
      var s, now := After(start, events, n - 1, alphanumeric), After(start, events, n, alphanumeric);
      var e, bound := events[n - 1], After(start, events, k, alphanumeric).store.nextMessage;
      NoTurnEndsSilently(start, events, k, n - 1, alphanumeric, a);
      ReachableInv(start, events, n - 1, alphanumeric);
      StepTurns(s, e, alphanumeric);
      StepIsLater(s, e, alphanumeric);
      TurnsGoOn(s, e, alphanumeric, a);
      CounterOfRun(start, events, k, n - 1, alphanumeric);
      if HeardIn(s.store.rooms, bound, s.asks[a]) {
        HeardStays(s.store, now.store, bound, s.asks[a], now.asks[a]);
      } else if !Unheard(now.asks[a].stage) {
        TurnRoom(s, a);
        BecomesHeard(s, e, alphanumeric, a, bound);
      }
    }
  }

  // ---------- the limit ----------

  predicate HitsLimit(s: State, e: Event, alphanumeric: char -> bool) {
    && e.FollowUp? && e.run in s.runs && !s.runs[e.run].limitHit
    && e.run in Step(s, e, alphanumeric).runs && Step(s, e, alphanumeric).runs[e.run].limitHit
  }

  /** A round hits the limit exactly when all of its turns are joined, sixteen of them were follow-ups, and there is
      one mention more; then the user is told in the room. */
  lemma LimitIsHitExactly(s: State, e: Event, alphanumeric: char -> bool)
    requires Inv(s) && e.FollowUp? && e.run in s.runs
    ensures var run := s.runs[e.run];
            HitsLimit(s, e, alphanumeric) <==>
              && run.group && !run.limitHit && run.queue != [] && run.turns == run.initial + 16
              && forall k :: 0 <= k < run.turns ==> AskId(e.run, k) in s.asks && s.asks[AskId(e.run, k)].stage == Joined
    ensures HitsLimit(s, e, alphanumeric) ==>
              exists m :: Gained(s.store, Step(s, e, alphanumeric).store, s.runs[e.run].room, m) && IsLimitNote(m, e)
  {
    hide StoreInv, AskInv, LockInv, PendingInv, AnswersInv, SleepInv, Pushed, Gained, DoSend, DoSettle, DoJoin,
         DoSnapshot, DoRegister, DoDeliver, DoSendDone, DoTakeTurn, DoReturn, DoFailEarly, DoFinish, DoSleep, DoCreate;
    var run := s.runs[e.run];
    assert RunOk(s.store, s.stuck, run);
    assert run.room in s.store.rooms && run.turns >= run.initial;
    hide RunInv, RunOk;
    PushGains(s.store, run.room, "error", SYSTEM, e.note, [], e.now);
  }

  predicate IsLimitNote(m: Message, e: Event) {
    e.FollowUp? && (m.role, m.author, m.text, m.createdAt) == ("error", "\U{7CFB}\U{7EDF}", e.note, e.now)
  }

  /** In every run: when a round hits the limit, its room gets the note that says so, and keeps it. */
  lemma LimitsAreShown(start: State, events: seq<Event>, k: nat, n: nat, alphanumeric: char -> bool)
    requires Started(start) && k < n <= |events|
    requires HitsLimit(After(start, events, k, alphanumeric), events[k], alphanumeric)
    ensures var s, now := After(start, events, k, alphanumeric), After(start, events, n, alphanumeric);
            var room := s.runs[events[k].run].room;
            && room in now.store.rooms
            && exists m :: m in now.store.rooms[room].messages && m.id == s.store.nextMessage
                           && IsLimitNote(m, events[k])
  {
    hide Step, Started, StoreInv, RunInv, AskInv, LockInv, PendingInv, AnswersInv, SleepInv, Gained, Later;
    var s, next := After(start, events, k, alphanumeric), After(start, events, k + 1, alphanumeric);
    ReachableInv(start, events, k, alphanumeric);
    LimitIsHitExactly(s, events[k], alphanumeric);
    var room := s.runs[events[k].run].room;
    var m :| Gained(s.store, next.store, room, m) && IsLimitNote(m, events[k]);
    GainedIsLast(s.store, next.store, room, m);
    GainedRoom(s.store, next.store, room, m);
    RunIsLater(start, events, k + 1, n, alphanumeric);
    StaysIn(next.store, After(start, events, n, alphanumeric).store, room, m);
  }

  // ---------- rooms ----------

  /** What the calls that make rooms do, field by field. */
  lemma RoomsAreMadeExactly(s: State, e: Event, alphanumeric: char -> bool)
    requires e.Reserve? || e.Create? || e.EnsureSolo?
    ensures var (rooms, later) := (s.store.rooms, Step(s, e, alphanumeric));
            match e
            case Reserve =>
              later == s.(store := s.store.(nextRoom := s.store.nextRoom + 1),
                          reserved := s.reserved + {s.store.nextRoom})
            case Create(id, name, members, incognito, now) =>
              if id in s.reserved && 1 <= |members| <= 8
                 && (forall i, j :: 0 <= i < j < |members| ==> members[i] != members[j]) then
                var room := Room(id, name, members, [], false, None, false, 0, now, false, incognito);
                later == s.(store := s.store.(rooms := rooms[id := room]), reserved := s.reserved - {id})
              else later == s
            case EnsureSolo(member, name, incognito, now) =>
              if exists r :: r in rooms && rooms[r].members == [member] && rooms[r].incognito == incognito
                             && (rooms[r].incognito || !rooms[r].archived) then later == s
              else
                var id := s.store.nextRoom;
                var room := Room(id, name, [member], [], false, None, false, 0, now, false, incognito);
                later == s.(store := s.store.(rooms := rooms[id := room], nextRoom := id + 1))
            case _ => true
  {
  }

  /** What the calls that set flags of rooms do, field by field. */
  lemma FlagsAreSetExactly(s: State, e: Event, alphanumeric: char -> bool)
    requires e.SetActive? || e.SetArchived? || e.SleepDue?
    ensures var (rooms, later) := (s.store.rooms, Step(s, e, alphanumeric));
            && later == s.(store := s.store.(rooms := later.store.rooms), log := later.log)
            && match e
               case SetActive(id, active) =>
                 later.store.rooms == if id in rooms then rooms[id := rooms[id].(active := active)] else rooms
               case SetArchived(id, archived) =>
                 later.store.rooms ==
                   if id in rooms && !rooms[id].busy && !rooms[id].incognito then
                     rooms[id := rooms[id].(archived := archived)]
                   else rooms
               case SleepDue(due) =>
                 && later.store.rooms.Keys == rooms.Keys
                 && (forall r :: r in rooms ==>
                       later.store.rooms[r] == (if r in due && !rooms[r].sleeping && !rooms[r].busy then
                         rooms[r].(sleeping := true, sleepGeneration := rooms[r].sleepGeneration + 1) else rooms[r]))
               case _ => true
  {
    hide Reports, SleptEntries;
  }

  // ---------- a round begins ----------

  /** A message takes effect, saved or not, exactly when there is something to send and not too much, the room is
      there, free and not archived, and, in a group, nobody else is mentioned than members and the user. */
  lemma MessagesTakeEffectExactly(s: State, e: Event, alphanumeric: char -> bool)
    requires e.Send?
    ensures Step(s, e, alphanumeric) != s <==> MayBeSent(s.store.rooms, e.id, e.text, e.media, alphanumeric)
  {
    hide SendVerdict, Sent, FirstAsks;
    VerdictExactly(s.store, e.id, e.text, e.media, alphanumeric);
    hide MayBeSent, IsMeantFor, ContentOk;
    if SendVerdict(s.store, e.id, e.text, e.media, alphanumeric).Accepted? {
      CalledInRoom(s.store, e.id, e.text, e.media, alphanumeric);
      assert |Step(s, e, alphanumeric).log| == |s.log| + 1;
    }
  }

  lemma CalledInRoom(st: Store, id: nat, raw: string, media: seq<Asset>, alphanumeric: char -> bool)
    requires SendVerdict(st, id, raw, media, alphanumeric).Accepted?
    ensures id in st.rooms
  {
  }

  /** A message that is accepted and saved is in its room, and starts a round with one turn for each member that
      it is meant for, in this order. A message that is not accepted changes nothing. */
  lemma MessagesStartRounds(s: State, e: Event, alphanumeric: char -> bool)
    requires Inv(s) && e.Send? && e.saved
    ensures var later := Step(s, e, alphanumeric);
            if MayBeSent(s.store.rooms, e.id, e.text, e.media, alphanumeric) then
              && s.nextRun !in s.runs && s.nextRun in later.runs && later.runs[s.nextRun].room == e.id
              && later.store.rooms[e.id].busy
              && exists m, called :: Gained(s.store, later.store, e.id, m)
                  && Starts(s, later, e, m, called, alphanumeric)
            else later == s
  {
    hide StoreOk, RunInv, AskInv, LockInv, PendingInv, AnswersInv, SleepInv, SendVerdict, Sent, FirstAsks, Gained,
         Starts;
    var verdict := SendVerdict(s.store, e.id, e.text, e.media, alphanumeric);
    VerdictExactly(s.store, e.id, e.text, e.media, alphanumeric);
    hide MayBeSent, IsMeantFor, ContentOk;
    if verdict.Accepted? {
      var later := Step(s, e, alphanumeric);
      var m := NewMessage(s.store, "user", HUMAN, Text.Trim(e.text), e.media, e.now);
      CalledAreMembers(s.store, e.id, e.text, e.media, alphanumeric);
      NextRoundIsNew(s);
      SentGains(s.store, e.id, e.text, e.media, e.now);
      TurnsOfRound(s, later, e, m, verdict.called, alphanumeric);
    }
  }

  lemma NextRoundIsNew(s: State)
    requires Inv(s)
    ensures s.nextRun !in s.runs && forall a :: a in s.asks ==> a.run != s.nextRun
  {
    hide RunOk, TurnsOk;
  }

  lemma SentGains(st: Store, id: nat, raw: string, media: seq<Asset>, now: nat)
    requires id in st.rooms
    ensures Gained(st, Sent(st, id, raw, media, now), id, NewMessage(st, "user", HUMAN, Text.Trim(raw), media, now))
    ensures Sent(st, id, raw, media, now).rooms[id].busy
  {
    SentOnce(st, id, raw, media, now);
    hide Sent, Views;
  }

  predicate Starts(s: State, later: State, e: Event, m: Message, called: seq<string>, alphanumeric: char -> bool)
    requires e.Send?
  {
    && (m.role, m.author, m.text, m.media) == ("user", "\U{4F60}", Text.Trim(e.text), e.media)
    && m.createdAt == e.now && m.attachments == Views(e.media)
    && e.id in s.store.rooms && IsMeantFor(m.text, s.store.rooms[e.id].members, called, alphanumeric)
    && (forall a :: a in later.asks && a.run == s.nextRun ==> a.turn < |called|)
    && (forall k :: 0 <= k < |called| ==>
          && AskId(s.nextRun, k) in later.asks
          && later.asks[AskId(s.nextRun, k)].member == called[k]
          && later.asks[AskId(s.nextRun, k)].room == e.id && later.asks[AskId(s.nextRun, k)].stage == Queued
          && later.asks[AskId(s.nextRun, k)].kind ==
               (if |s.store.rooms[e.id].members| > 1 then Contribution else Direct)
          && later.asks[AskId(s.nextRun, k)].start == if |s.store.rooms[e.id].members| > 1 then Some(m.id) else None)
  }

  lemma TurnsOfRound(s: State, later: State, e: Event, m: Message, called: seq<string>, alphanumeric: char -> bool)
    requires e.Send? && e.saved && later == Step(s, e, alphanumeric)
    requires SendVerdict(s.store, e.id, e.text, e.media, alphanumeric) == Accepted(called)
    requires m == NewMessage(s.store, "user", HUMAN, Text.Trim(e.text), e.media, e.now)
    requires forall a :: a in s.asks ==> a.run != s.nextRun
    ensures Starts(s, later, e, m, called, alphanumeric)
  {
    hide SendVerdict, Sent, IsMeantFor, Views;
    VerdictExactly(s.store, e.id, e.text, e.media, alphanumeric);
  }
}
