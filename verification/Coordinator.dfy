/** The chat coordinator as a machine of atomic steps. Every task of the program (the task of a round, each
    turn in it, the reply worker, the calls of the web layer) contributes steps, and a run is any sequence of
    steps in any order: all interleavings of all rooms. */
module Coordinator {
  import opened Options
  import opened Rooms
  import opened ChatOps
  import Mentions
  import Ordered
  import Text

  // ---------- state ----------

  datatype Kind = Direct | Contribution | Mention

  /** Turn number `turn` of the round `run`. */
  datatype AskId = AskId(run: nat, turn: nat)

  datatype RequestId = RequestId(room: nat, serial: nat)

  datatype TurnResult = TurnResult(completed: bool, response: Option<string>, attachments: seq<Asset>)

  datatype Outcome = Answered(text: string) | Failed

  /** How far a turn has come. It holds the turn lock of its member from `Holding` to `Settled`. */
  datatype Stage =
    | Queued
    | Holding
    | Snapshotted
    | Requested(id: RequestId, sent: bool, reply: Option<TurnResult>)
    | Settled(outcome: Outcome)
    | Returned(outcome: Outcome)
    | Joined

  datatype Ask = Ask(room: nat, member: string, kind: Kind, start: Option<nat>, stage: Stage,
                     context: Option<seq<ContextMessage>>)

  /** The task of one round: `initial` turns at the beginning, follow-ups afterwards. `enqueued` and
      `executed` record the mention pairs that entered and left the queue. */
  datatype Run = Run(room: nat, group: bool, start: nat, initial: nat, turns: nat, queue: seq<(string, string)>,
                     enqueued: seq<(string, string)>, executed: seq<(string, string)>, limitHit: bool)

  datatype Pending = Pending(expected: string, ask: AskId)

  /** What has happened, for the statements about whole runs. */
  datatype Entry =
    | Said(room: nat)
    | Slept(room: nat)
    | Gave(member: string, room: nat, message: nat, text: string, ask: AskId)

  datatype State = State(
    store: Store, reserved: set<nat>,
    runs: map<nat, Run>, nextRun: nat, asks: map<AskId, Ask>,
    holders: map<string, AskId>, pending: map<RequestId, Pending>, nextRequest: nat,
    stuck: set<nat>, log: seq<Entry>)

  const MAX_MENTION_TURNS: nat := 16

  // ---------- steps ----------

  datatype Event =
    | Reserve
    | Create(id: nat, name: string, members: seq<string>, incognito: bool, now: nat)
    | EnsureSolo(member: string, name: string, incognito: bool, now: nat)
    | Send(id: nat, text: string, media: seq<Asset>, now: nat, saved: bool)
    | SetActive(id: nat, active: Option<string>)
    | SleepDue(due: set<nat>)
    | SetArchived(id: nat, archived: bool)
    | FailEarly(ask: AskId)
    | TakeTurn(ask: AskId)
    | Snapshot(ask: AskId)
    | Register(ask: AskId)
    | SendDone(ask: AskId, delivered: bool)
    | Deliver(source: string, request: RequestId, result: TurnResult)
    | Settle(ask: AskId, now: nat)
    | Return(ask: AskId)
    | Join(ask: AskId, now: nat, note: string)
    | FollowUp(run: nat, now: nat, note: string)
    | Finish(run: nat, now: nat)

  function WithStage(s: State, a: AskId, stage: Stage): State
    requires a in s.asks
  {
    s.(asks := s.asks[a := s.asks[a].(stage := stage)])
  }

  function DoReserve(s: State): State {
    s.(reserved := s.reserved + {s.store.nextRoom}, store := s.store.(nextRoom := s.store.nextRoom + 1))
  }

  function DoCreate(s: State, e: Event): State
    requires e.Create?
  {
    if e.id in s.reserved && MembersOk(e.members) then
      s.(reserved := s.reserved - {e.id},
         store := WithRoom(s.store, NewRoom(e.id, e.name, e.members, e.incognito, e.now)))
    else s
  }

  /** Is there a room that this call would reuse? */
  predicate SoloExists(st: Store, member: string, incognito: bool) {
    exists r :: r in st.rooms && st.rooms[r].incognito == incognito && (incognito || !st.rooms[r].archived)
                && st.rooms[r].members == [member]
  }

  function DoEnsureSolo(s: State, member: string, name: string, incognito: bool, now: nat): State {
    if SoloExists(s.store, member, incognito) then s else
    var id := s.store.nextRoom;
    s.(store := WithRoom(s.store.(nextRoom := id + 1), NewRoom(id, name, [member], incognito, now)))
  }

  /** The first turns of a round. */
  function FirstAsks(run: nat, room: nat, group: bool, start: nat, called: seq<string>): (asks: map<AskId, Ask>)
    ensures forall a :: a in asks <==> a.run == run && a.turn < |called|
    ensures forall a :: a in asks ==>
              asks[a] == Ask(room, called[a.turn], if group then Contribution else Direct,
                             if group then Some(start) else None, Queued, None)
  {
    var ids := set k | 0 <= k < |called| :: AskId(run, k);
    map a | a in ids :: Ask(room, called[a.turn], if group then Contribution else Direct,
                            if group then Some(start) else None, Queued, None)
  }

  function DoSend(s: State, e: Event, alphanumeric: char -> bool): State
    requires e.Send?
  {
    match SendVerdict(s.store, e.id, e.text, e.media, alphanumeric)
    case Accepted(called) =>
      var group, start := |s.store.rooms[e.id].members| > 1, s.store.nextMessage;
      var said := s.(store := Sent(s.store, e.id, e.text, e.media, e.now), log := s.log + [Said(e.id)]);
      if !e.saved then said.(stuck := s.stuck + {e.id}) else
      said.(runs := s.runs[s.nextRun := Run(e.id, group, start, |called|, |called|, [], [], [], false)],
            asks := s.asks + FirstAsks(s.nextRun, e.id, group, start, called),
            nextRun := s.nextRun + 1)
    case _ => s
  }

  function Reports(st: Store, due: set<nat>): seq<nat> {
    Ordered.InOrder(set r | r in st.rooms && FallsAsleep(st, due, r))
  }

  function SleptEntries(ids: seq<nat>): (entries: seq<Entry>)
    ensures |entries| == |ids|
    ensures forall k :: 0 <= k < |ids| ==> entries[k] == Slept(ids[k])
  {
    seq(|ids|, k requires 0 <= k < |ids| => Slept(ids[k]))
  }

  function DoSleep(s: State, due: set<nat>): State {
    s.(store := ChatOps.Slept(s.store, due), log := s.log + SleptEntries(Reports(s.store, due)))
  }

  function DoArchive(s: State, id: nat, archived: bool): State {
    if ArchiveVerdict(s.store, id).Accepted? then s.(store := WithArchived(s.store, id, archived)) else s
  }

  function DoTakeTurn(s: State, a: AskId): State {
    if a in s.asks && s.asks[a].stage == Queued && s.asks[a].member !in s.holders then
      WithStage(s, a, Holding).(holders := s.holders[s.asks[a].member := a])
    else s
  }

  function DoSnapshot(s: State, a: AskId): State {
    if a !in s.asks || s.asks[a].stage != Holding then s else
    var ask := s.asks[a];
    if ask.room !in s.store.rooms then WithStage(s, a, Settled(Failed)) else
    s.(asks := s.asks[a := ask.(stage := Snapshotted,
                                context := Some(TurnContext(s.store.rooms, ask.member, ask.room, ask.start)))])
  }

  function DoRegister(s: State, a: AskId): State {
    if a !in s.asks || s.asks[a].stage != Snapshotted then s else
    var id := RequestId(s.asks[a].room, s.nextRequest);
    WithStage(s, a, Requested(id, false, None))
      .(pending := s.pending[id := Pending(s.asks[a].member, a)], nextRequest := s.nextRequest + 1)
  }

  function DoSendDone(s: State, a: AskId, delivered: bool): State {
    if a !in s.asks || !s.asks[a].stage.Requested? || s.asks[a].stage.sent then s else
    var stage := s.asks[a].stage;
    if delivered then WithStage(s, a, stage.(sent := true))
    else WithStage(s, a, Settled(Failed)).(pending := s.pending - {stage.id})
  }

  /** The reply worker. */
  function DoDeliver(s: State, source: string, id: RequestId, result: TurnResult): State {
    if id !in s.pending || s.pending[id].expected != source then s else
    var a := s.pending[id].ask;
    var taken := s.(pending := s.pending - {id});
    if a in s.asks && s.asks[a].stage.Requested? && s.asks[a].stage.id == id then
      WithStage(taken, a, s.asks[a].stage.(reply := Some(result)))
    else taken
  }

  /** The text of an answer, if the result has one. */
  function AnswerText(r: TurnResult): Option<string> {
    if !r.completed then None
    else if r.response.Some? && !Text.IsBlank(r.response.value) then r.response
    else if r.attachments != [] then Some(ATTACHMENT_NOTE)
    else None
  }

  const ATTACHMENT_NOTE := "\U{5DF2}\U{53D1}\U{9001}\U{9644}\U{4EF6}"

  function Role(kind: Kind, text: string, alphanumeric: char -> bool): (role: string)
    ensures role == "agent" || role == "summary"
  {
    if kind != Direct && Mentions.MentionsUser(text, alphanumeric) then "summary" else "agent"
  }

  function DoSettle(s: State, a: AskId, now: nat, alphanumeric: char -> bool): State {
    if a !in s.asks || !s.asks[a].stage.Requested? || !s.asks[a].stage.sent || s.asks[a].stage.reply.None? then s else
    var ask := s.asks[a];
    var result := ask.stage.reply.value;
    match AnswerText(result)
    case None => WithStage(s, a, Settled(Failed))
    case Some(text) =>
      WithStage(s, a, Settled(Answered(text)))
        .(store := Pushed(s.store, ask.room, Role(ask.kind, text, alphanumeric),
                          ask.member, text, result.attachments, now),
          log := s.log + [Gave(ask.member, ask.room, s.store.nextMessage, text, a)])
  }

  function DoReturn(s: State, a: AskId): State {
    if a in s.asks && s.asks[a].stage.Settled? then
      WithStage(s, a, Returned(s.asks[a].stage.outcome)).(holders := s.holders - {s.asks[a].member})
    else s
  }

  function DoFailEarly(s: State, a: AskId): State {
    if a in s.asks && s.asks[a].stage == Queued then WithStage(s, a, Returned(Failed)) else s
  }

  function DoJoin(s: State, a: AskId, now: nat, note: string, alphanumeric: char -> bool): State {
    if a !in s.asks || !s.asks[a].stage.Returned? || a.run !in s.runs then s else
    var ask, run := s.asks[a], s.runs[a.run];
    var joined := WithStage(s, a, Joined);
    match ask.stage.outcome
    case Failed => joined.(store := Pushed(s.store, ask.room, "error", SYSTEM, note, [], now))
    case Answered(text) =>
      if !run.group || ask.room !in s.store.rooms then joined else
      var more := Mentions.FollowUps(ask.member, text, s.store.rooms[ask.room].members, alphanumeric);
      joined.(runs := s.runs[a.run := run.(queue := run.queue + more, enqueued := run.enqueued + more)])
  }

  predicate AllJoined(s: State, r: nat)
    requires r in s.runs
  {
    forall k :: 0 <= k < s.runs[r].turns ==> AskId(r, k) in s.asks && s.asks[AskId(r, k)].stage == Joined
  }

  /** A round takes the next mention from its queue, and calls the member. */
  function Popped(run: Run): Run
    requires run.queue != []
  {
    run.(turns := run.turns + 1, queue := run.queue[1..], executed := run.executed + [run.queue[0]])
  }

  function Called(run: Run): Ask
    requires run.queue != []
  {
    Ask(run.room, run.queue[0].1, Mention, None, Queued, None)
  }

  function DoFollowUp(s: State, r: nat, now: nat, note: string): State {
    if r !in s.runs || !s.runs[r].group || !AllJoined(s, r) || s.runs[r].queue == [] || s.runs[r].limitHit then s else
    var run := s.runs[r];
    if run.turns - run.initial == MAX_MENTION_TURNS then
      s.(runs := s.runs[r := run.(limitHit := true)],
         store := Pushed(s.store, run.room, "error", SYSTEM, note, [], now))
    else
      s.(runs := s.runs[r := Popped(run)], asks := s.asks[AskId(r, run.turns) := Called(run)])
  }

  function DoFinish(s: State, r: nat, now: nat): State {
    if r !in s.runs || !AllJoined(s, r) || !(s.runs[r].queue == [] || s.runs[r].limitHit) then s else
    s.(store := Finished(s.store, s.runs[r].room, now), runs := s.runs - {r})
  }

  /** One event; an event that does not fit the state changes nothing. */
  function Step(s: State, e: Event, alphanumeric: char -> bool): State {
    match e
    case Reserve => DoReserve(s)
    case Create(_, _, _, _, _) => DoCreate(s, e)
    case EnsureSolo(member, name, incognito, now) => DoEnsureSolo(s, member, name, incognito, now)
    case Send(_, _, _, _, _) => DoSend(s, e, alphanumeric)
    case SetActive(id, active) => s.(store := WithActive(s.store, id, active))
    case SleepDue(due) => DoSleep(s, due)
    case SetArchived(id, archived) => DoArchive(s, id, archived)
    case FailEarly(a) => DoFailEarly(s, a)
    case TakeTurn(a) => DoTakeTurn(s, a)
    case Snapshot(a) => DoSnapshot(s, a)
    case Register(a) => DoRegister(s, a)
    case SendDone(a, delivered) => DoSendDone(s, a, delivered)
    case Deliver(source, id, result) => DoDeliver(s, source, id, result)
    case Settle(a, now) => DoSettle(s, a, now, alphanumeric)
    case Return(a) => DoReturn(s, a)
    case Join(a, now, note) => DoJoin(s, a, now, note, alphanumeric)
    case FollowUp(r, now, note) => DoFollowUp(s, r, now, note)
    case Finish(r, now) => DoFinish(s, r, now)
  }

  /** The coordinator right after start: rooms restored or none, no task running. */
  predicate Started(s: State) {
    && StoreOk(s.store) && (forall r :: r in s.store.rooms ==> !s.store.rooms[r].busy)
    && s.reserved == {} && s.runs == map[] && s.asks == map[] && s.holders == map[] && s.pending == map[]
    && s.stuck == {} && s.log == []
  }

  function After(start: State, events: seq<Event>, n: nat, alphanumeric: char -> bool): State
    requires n <= |events|
  {
    if n == 0 then start else Step(After(start, events, n - 1, alphanumeric), events[n - 1], alphanumeric)
  }
}
