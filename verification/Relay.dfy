/** The tools Resident: it relays two kinds of queries from LLM Residents to chat and carries the answers
    back. Each relayed query travels under a fresh relay id of its own. */
module Relay {
  import Text

  datatype Kind = Members | ChatContext

  /** A tool request after decoding. A members request uses only the first two fields. */
  datatype Request = Request(kind: Kind, callId: string, room: nat, visible: set<nat>, limit: nat)

  datatype RelayId = RelayId(kind: Kind, serial: nat)

  /** Where the answer of a relayed query has to go. */
  datatype Return = Return(requester: string, callId: string)

  /** Messages that reach the tools Resident; `forwards` tells whether the query reaches chat. */
  datatype Event =
    | Ask(requester: string, request: Request, forwards: bool)
    | Result(source: string, kind: Kind, id: RelayId, body: string)

  /** What the tools Resident sends to LLM Residents. */
  datatype Answer =
    | Relayed(id: RelayId, to: string, callId: string, body: string)
    | Unforwarded(id: RelayId, to: string, callId: string)
    | Rejected(to: string, callId: string)

  const CHAT := "chat.rooms"

  datatype State = State(pending: map<RelayId, Return>, pendingContext: map<RelayId, Return>, nextQuery: nat,
                         answers: seq<Answer>)

  const START := State(map[], map[], 1, [])

  predicate Valid(r: Request) {
    && !Text.IsBlank(r.callId) && r.room != 0
    && (r.kind == ChatContext ==> r.room in r.visible && 1 <= r.limit <= 200)
  }

  /** The map that holds the queries of this kind. */
  function Waiting(s: State, kind: Kind): map<RelayId, Return> {
    if kind == Members then s.pending else s.pendingContext
  }

  function SetWaiting(s: State, kind: Kind, waiting: map<RelayId, Return>): State {
    if kind == Members then s.(pending := waiting) else s.(pendingContext := waiting)
  }

  function Step(s: State, e: Event): State {
    match e
    case Ask(requester, request, forwards) =>
      if !Valid(request) then s.(answers := s.answers + [Rejected(requester, request.callId)]) else
      var id := RelayId(request.kind, s.nextQuery);
      var numbered := s.(nextQuery := s.nextQuery + 1);
      if forwards then
        SetWaiting(numbered, request.kind, Waiting(s, request.kind)[id := Return(requester, request.callId)])
      else numbered.(answers := s.answers + [Unforwarded(id, requester, request.callId)])
    case Result(source, kind, id, body) =>
      if source == CHAT && id in Waiting(s, kind) then
        var back := Waiting(s, kind)[id];
        SetWaiting(s, kind, Waiting(s, kind) - {id})
          .(answers := s.answers + [Relayed(id, back.requester, back.callId, body)])
      else s
  }

  function After(events: seq<Event>, n: nat): State
    requires n <= |events|
  {
    if n == 0 then START else Step(After(events, n - 1), events[n - 1])
  }

  // ---------- every accepted request is pending or answered once ----------

  /** Event `i` is a request that was accepted; its relay id carries the number that was next then. */
  predicate Accepted(events: seq<Event>, i: nat) {
    i < |events| && events[i].Ask? && Valid(events[i].request)
  }

  function IdOf(events: seq<Event>, i: nat): RelayId
    requires Accepted(events, i)
  {
    RelayId(events[i].request.kind, After(events, i).nextQuery)
  }

  function ReturnOf(events: seq<Event>, i: nat): Return
    requires Accepted(events, i)
  {
    Return(events[i].requester, events[i].request.callId)
  }

  predicate Answers(a: Answer, id: RelayId) {
    !a.Rejected? && a.id == id
  }

  function AnswerCount(answers: seq<Answer>, id: RelayId): nat {
    if answers == [] then 0 else
    AnswerCount(answers[..|answers| - 1], id) + if Answers(answers[|answers| - 1], id) then 1 else 0
  }

  /** The standing of one relay id: waiting in the map of its kind, or answered. */
  function Standing(s: State, id: RelayId): nat {
    (if id in Waiting(s, id.kind) then 1 else 0) + AnswerCount(s.answers, id)
  }

  predicate KindsKeptApart(s: State) {
    && (forall id :: id in s.pending ==> id.kind == Members)
    && (forall id :: id in s.pendingContext ==> id.kind == ChatContext)
  }

  lemma StepStanding(s: State, e: Event, id: RelayId)
    requires KindsKeptApart(s)
    ensures KindsKeptApart(Step(s, e)) && s.nextQuery <= Step(s, e).nextQuery
    ensures var given := e.Ask? && Valid(e.request) && id == RelayId(e.request.kind, s.nextQuery);
            Standing(Step(s, e), id) ==
              if given then (if id in Waiting(s, id.kind) && e.forwards then 0 else 1) + Standing(s, id)
              else Standing(s, id)
  {
    hide Valid;
    var s' := Step(s, e);
    if |s'.answers| > |s.answers| {
      assert s'.answers[..|s.answers|] == s.answers;
    } else {
      assert s'.answers == s.answers;
      hide AnswerCount;
    }
  }

  /** Only ids that have been given out are waiting or answered. */
  lemma {:induction false} FreshIdsAreUnused(events: seq<Event>, n: nat, id: RelayId)
    requires n <= |events| && id.serial >= After(events, n).nextQuery
    ensures KindsKeptApart(After(events, n)) && Standing(After(events, n), id) == 0
  {
    if n > 0 {
      FreshIdsAreUnused(events, n - 1, RelayId(id.kind, id.serial + After(events, n - 1).nextQuery));
      StepStanding(After(events, n - 1), events[n - 1], id);
      FreshIdsAreUnused(events, n - 1, id);
    }
  }

  lemma NumbersOnlyGrow(s: State, e: Event)
    ensures s.nextQuery <= Step(s, e).nextQuery
  {
  }

  lemma AcceptedCounts(s: State, e: Event)
    requires e.Ask? && Valid(e.request)
    ensures s.nextQuery < Step(s, e).nextQuery
  {
  }

  /** Different accepted requests get different relay ids, even when requesters reuse their call ids. */
  lemma {:induction false} RelayIdsAreDistinct(events: seq<Event>, i: nat, n: nat)
    requires Accepted(events, i) && i < n <= |events|
    ensures IdOf(events, i).serial < After(events, n).nextQuery
    decreases n - i
  {
    NumbersOnlyGrow(After(events, n - 1), events[n - 1]);
    hide Step, Valid;
    if i + 1 < n {
      RelayIdsAreDistinct(events, i, n - 1);
    } else {
      AcceptedCounts(After(events, i), events[i]);
    }
  }

  /** Each accepted request is, at every later moment, either still pending or answered exactly once, whatever
      results arrive from whomever. */
  lemma {:induction false} PendingOrAnsweredOnce(events: seq<Event>, i: nat, n: nat)
    requires Accepted(events, i) && i < n <= |events|
    ensures KindsKeptApart(After(events, n)) && Standing(After(events, n), IdOf(events, i)) == 1
    decreases n - i
  {
    hide Step, Valid, AnswerCount;
    var id := IdOf(events, i);
    if i + 1 == n {
      FreshIdsAreUnused(events, i, id);
      StepStanding(After(events, i), events[i], id);
    } else {
      PendingOrAnsweredOnce(events, i, n - 1);
      RelayIdsAreDistinct(events, i, n - 1);
      StepStanding(After(events, n - 1), events[n - 1], id);
    }
  }

  /** What waits for, or was sent under, a relay id belongs to the request that got this id. */
  ghost predicate Explained(events: seq<Event>, n: nat, id: RelayId, back: Return) {
    exists i :: 0 <= i < n && Accepted(events, i) && IdOf(events, i) == id && ReturnOf(events, i) == back
  }

  lemma ExplainedLater(events: seq<Event>, n: nat, id: RelayId, back: Return)
    requires Explained(events, n, id, back)
    ensures Explained(events, n + 1, id, back)
  {
    var i :| 0 <= i < n && Accepted(events, i) && IdOf(events, i) == id && ReturnOf(events, i) == back;
    assert 0 <= i < n + 1;
  }

  /** One event: what waits or was answered afterwards was so before, or belongs to this very request. */
  lemma StepOrigins(s: State, e: Event, kind: Kind, id: RelayId)
    ensures var s' := Step(s, e);
            id in Waiting(s', kind) ==>
              || (id in Waiting(s, kind) && Waiting(s', kind)[id] == Waiting(s, kind)[id])
              || (e.Ask? && Valid(e.request) && id == RelayId(e.request.kind, s.nextQuery)
                  && Waiting(s', kind)[id] == Return(e.requester, e.request.callId))
    ensures forall a :: a in Step(s, e).answers && !a.Rejected? ==>
              || a in s.answers
              || (e.Result? && a.id in Waiting(s, e.kind) && Waiting(s, e.kind)[a.id] == Return(a.to, a.callId))
              || (e.Ask? && Valid(e.request) && a.id == RelayId(e.request.kind, s.nextQuery)
                  && Return(a.to, a.callId) == Return(e.requester, e.request.callId))
  {
  }

  /** Every answer goes to the requester of its own request, under the call id that this requester chose. */
  lemma {:induction false} AnswersGoHome(events: seq<Event>, n: nat)
    requires n <= |events|
    ensures forall kind, id :: id in Waiting(After(events, n), kind) ==>
              Explained(events, n, id, Waiting(After(events, n), kind)[id])
    ensures forall a :: a in After(events, n).answers && !a.Rejected? ==>
              Explained(events, n, a.id, Return(a.to, a.callId))
  {
    if n > 0 {
      var s, s', e := After(events, n - 1), After(events, n), events[n - 1];
      AnswersGoHome(events, n - 1);
      hide Step, Waiting;
      if e.Ask? && Valid(e.request) {
        assert Accepted(events, n - 1);
        assert Explained(events, n, IdOf(events, n - 1), ReturnOf(events, n - 1));
      }
      forall kind, id | id in Waiting(s', kind)
        ensures Explained(events, n, id, Waiting(s', kind)[id])
      {
        StepOrigins(s, e, kind, id);
        if id in Waiting(s, kind) && Waiting(s', kind)[id] == Waiting(s, kind)[id] {
          ExplainedLater(events, n - 1, id, Waiting(s, kind)[id]);
        }
      }
      forall a | a in s'.answers && !a.Rejected?
        ensures Explained(events, n, a.id, Return(a.to, a.callId))
      {
        StepOrigins(s, e, Members, a.id);
        if a in s.answers || e.Result? {
          ExplainedLater(events, n - 1, a.id, Return(a.to, a.callId));
        }
      }
    }
  }

  // ---------- what the answers say ----------

  /** A request is accepted exactly with a call id, a room, and, when it is about history, a visible room and a page
      size from 1 to 200. It then waits under the next id, unless chat cannot be reached; every other request is
      answered at once. */
  lemma RequestsAreAnsweredExactly(s: State, e: Event)
    requires e.Ask?
    ensures var (r, later) := (e.request, Step(s, e));
            var accepted := Text.Trim(r.callId) != "" && r.room != 0
                            && (r.kind == ChatContext ==> r.room in r.visible && 1 <= r.limit <= 200);
            var id := RelayId(r.kind, s.nextQuery);
            var others :=
              if r.kind == Members then (s.pendingContext, later.pendingContext) else (s.pending, later.pending);
            && others.0 == others.1
            && (if !accepted then
                  later == s.(answers := s.answers + [Rejected(e.requester, r.callId)])
                else
                  && later.nextQuery == s.nextQuery + 1
                  && (if e.forwards then
                        && Waiting(later, r.kind) == Waiting(s, r.kind)[id := Return(e.requester, r.callId)]
                        && later.answers == s.answers
                      else
                        && Waiting(later, r.kind) == Waiting(s, r.kind)
                        && later.answers == s.answers + [Unforwarded(id, e.requester, r.callId)]))
  {
  }

  lemma RelayedBody(s: State, e: Event, a: Answer)
    requires a in Step(s, e).answers && a !in s.answers && a.Relayed?
    ensures e.Result? && e.source == "chat.rooms" && e.id == a.id && e.body == a.body && a.id in Waiting(s, e.kind)
  {
    hide Valid;
  }

  /** Over every run: what a requester gets as the result of its query is, word for word, what chat sent for the
      relay id of this query while the query was waiting. */
  lemma {:induction false} ResultsComeFromChat(events: seq<Event>, n: nat, a: Answer) returns (k: nat)
    requires n <= |events| && a in After(events, n).answers && a.Relayed?
    ensures k < n && a.id in Waiting(After(events, k), a.id.kind)
    ensures events[k] == Result("chat.rooms", a.id.kind, a.id, a.body)
  {
    hide Step;
    if a in After(events, n - 1).answers {
      k := ResultsComeFromChat(events, n - 1, a);
    } else {
      k := n - 1;
      RelayedBody(After(events, k), events[k], a);
      FreshIdsAreUnused(events, k, RelayId(Members, After(events, k).nextQuery));
    }
  }

  /** Conversely, each such result goes on at once, under the call id of the request that got the relay id, to its
      requester and to nobody else. */
  lemma ResultsReachTheirRequester(events: seq<Event>, k: nat, kind: Kind, id: RelayId, body: string)
    requires k < |events| && events[k] == Result("chat.rooms", kind, id, body) && id in Waiting(After(events, k), kind)
    ensures exists i :: 0 <= i < k && Accepted(events, i) && IdOf(events, i) == id
              && After(events, k + 1).answers == After(events, k).answers
                   + [Relayed(id, events[i].requester, events[i].request.callId, body)]
    ensures id !in Waiting(After(events, k + 1), kind)
  {
    AnswersGoHome(events, k);
    ResultIsRelayed(After(events, k), kind, id, body);
    hide Step, Waiting;
    var back := Waiting(After(events, k), kind)[id];
    assert Explained(events, k, id, back);
  }

  lemma ResultIsRelayed(s: State, kind: Kind, id: RelayId, body: string)
    requires id in Waiting(s, kind)
    ensures var later, back := Step(s, Result("chat.rooms", kind, id, body)), Waiting(s, kind)[id];
            && later.answers == s.answers + [Relayed(id, back.requester, back.callId, body)]
            && id !in Waiting(later, kind)
  {
  }

  /** A result that is not from chat, or whose relay id is not waiting any more, changes nothing. */
  lemma StrayResultsAreIgnored(s: State, source: string, kind: Kind, id: RelayId, body: string)
    requires KindsKeptApart(s)
    ensures (Step(s, Result(source, kind, id, body)) != s) <==> source == CHAT && id in Waiting(s, kind)
    ensures var later := Step(s, Result(source, kind, id, body)); Step(later, Result(source, kind, id, body)) == later
  {
  }

  // ---------- the event loop ----------

  class RoomTools {
    var pending: map<RelayId, Return>
    var pendingContext: map<RelayId, Return>
    var nextQuery: nat
    var answers: seq<Answer>    // everything sent to LLM Residents so far

    constructor ()
      ensures Now() == START
    {
      pending, pendingContext, nextQuery, answers := map[], map[], 1, [];
    }

    function Now(): State
      reads this
    {
      State(pending, pendingContext, nextQuery, answers)
    }

    /** Work through the inbox. */
    method Run(inbox: seq<Event>)
      requires Now() == START
      modifies this
      ensures Now() == After(inbox, |inbox|)
    {
      for n := 0 to |inbox|
        invariant Now() == After(inbox, n)
      {
        if inbox[n].Ask? {
          FreshIdsAreUnused(inbox, n, RelayId(inbox[n].request.kind, nextQuery));
        }
        Handle(inbox[n]);
      }
    }

    method Handle(e: Event)
      requires e.Ask? ==> RelayId(e.request.kind, nextQuery) !in Waiting(Now(), e.request.kind)
      modifies this
      ensures Now() == Step(old(Now()), e)
    {
      match e
      case Ask(requester, request, forwards) =>
        if !Valid(request) {
          answers := answers + [Rejected(requester, request.callId)];
          return;
        }
        var id := RelayId(request.kind, nextQuery);
        nextQuery := nextQuery + 1;
        match request.kind {
          case Members => pending := pending[id := Return(requester, request.callId)];
          case ChatContext => pendingContext := pendingContext[id := Return(requester, request.callId)];
        }
        if !forwards {
          match request.kind {
            case Members => pending := pending - {id};
            case ChatContext => pendingContext := pendingContext - {id};
          }
          answers := answers + [Unforwarded(id, requester, request.callId)];
        }
      case Result(source, kind, id, body) =>
        if source != CHAT {
          return;
        }
        if kind == Members && id in pending {
          var back := pending[id];
          pending := pending - {id};
          answers := answers + [Relayed(id, back.requester, back.callId, body)];
        } else if kind == ChatContext && id in pendingContext {
          var back := pendingContext[id];
          pendingContext := pendingContext - {id};
          answers := answers + [Relayed(id, back.requester, back.callId, body)];
        }
    }
  }
}
