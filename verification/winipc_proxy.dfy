/** One end of the WinIpc pipe: handlers for the other end's queries and the queries still unanswered. */
module WinIpcProxy {
  import opened Outcomes
  import opened PendingResponses

  /** A GVariant, opaque but for its type string. */
  datatype Variant = Variant(typeString: string, payload: int)

  datatype Query = Query(verb: string, argument: Option<Variant>, responseType: Option<string>)

  datatype Message =
    | Request(id: nat, verb: string, argument: Option<Variant>)
    | Response(id: nat, success: bool, value: Option<Variant>)

  datatype Handler = Handler(tag: nat, argumentType: Option<string>)

  /** A `process_request` suspended in a handler. */
  datatype Activation = Activation(verb: string, argument: Option<Variant>)

  /** How a `query` call ends. */
  datatype Outcome = Reply(value: Option<Variant>) | InvalidQuery | InvalidResponse

  datatype Completion = Completion(id: nat, outcome: Outcome)

  /** `VariantTypeSpec.has_same_type_as`: no spec accepts anything, the empty spec only null, and a concrete
      type only a value of that type (GLib warns about the type of a null and compares it as different). */
  predicate HasSameType(spec: Option<string>, v: Option<Variant>) {
    match spec
    case None => true
    case Some("") => v == None
    case Some(t) => v.Some? && v.value.typeString == t
  }

  /** What becomes of a request under the handlers registered when it is processed. */
  datatype Verdict = Accepted | Rejected

  function Judge(handlers: map<string, Handler>, verb: string, argument: Option<Variant>): Verdict {
    if verb in handlers && HasSameType(handlers[verb].argumentType, argument) then Accepted else Rejected
  }

  function QueryOutcome(query: Query, success: bool, value: Option<Variant>): Outcome {
    if !success then InvalidQuery
    else if HasSameType(query.responseType, value) then Reply(value)
    else InvalidResponse
  }

  /** `reading`: the message loop runs. `completed` records how each query of this peer ended, in order. */
  datatype Peer = Peer(
    lastRequestId: nat,
    pending: seq<Pending<Query>>,
    handlers: map<string, Handler>,
    lastHandlerId: nat,
    handling: map<nat, Activation>,
    reading: bool,
    closedSignals: nat,
    completed: seq<Completion>)

  const FRESH_PEER := Peer(1, [], map[], 1, map[], true, 0, [])

  function Sent(p: Peer, query: Query): Peer {
    p.(lastRequestId := p.lastRequestId + 1, pending := p.pending + [Pending(p.lastRequestId, query)])
  }

  function Answered(p: Peer, id: nat, success: bool, value: Option<Variant>): Peer {
    var i := FindPending(p.pending, id);
    if i == |p.pending| then p
    else
      p.(pending := p.pending[..i] + p.pending[i + 1..],
         completed := p.completed + [Completion(id, QueryOutcome(p.pending[i].query, success, value))])
  }

  /** A request reaches the proxy; the reply sent at once, if any, is `Refusal(id)`. */
  function Requested(p: Peer, id: nat, verb: string, argument: Option<Variant>): Peer {
    match Judge(p.handlers, verb, argument)
    case Accepted => p.(handling := p.handling[id := Activation(verb, argument)])
    case Rejected => p
  }

  function Refusal(id: nat): Message {
    Response(id, false, None)
  }

  function Handled(p: Peer, id: nat): Peer {
    p.(handling := p.handling - {id})
  }

  function Registered(p: Peer, verb: string, argumentType: Option<string>): Peer {
    p.(handlers := p.handlers[verb := Handler(p.lastHandlerId, argumentType)], lastHandlerId := p.lastHandlerId + 1)
  }

  function Unregistered(p: Peer, tag: nat): Peer {
    p.(handlers := map verb | verb in p.handlers && p.handlers[verb].tag != tag :: p.handlers[verb])
  }

  /** The loop ends: by `close`, or by a failed read; the signal is given once. */
  function Stopped(p: Peer): Peer {
    p.(reading := false, closedSignals := 1)
  }

  class Proxy {
    var lastRequestId: nat
    var pendingResponses: seq<Pending<Query>>
    var queryHandlers: map<string, Handler>
    var lastHandlerId: nat
    var handling: map<nat, Activation>
    var reading: bool
    var hasBeenClosed: bool
    ghost var closedSignals: nat
    ghost var completed: seq<Completion>

    ghost function View(): Peer
      reads this
    {
      Peer(lastRequestId, pendingResponses, queryHandlers, lastHandlerId, handling, reading, closedSignals, completed)
    }

    /** Handler tags are unique, and the `closed` signal has been given iff `hasBeenClosed`. */
    ghost predicate Valid()
      reads this
    {
      && (forall v :: v in queryHandlers ==> queryHandlers[v].tag < lastHandlerId)
      && (forall v, w :: v in queryHandlers && w in queryHandlers && v != w ==>
            queryHandlers[v].tag != queryHandlers[w].tag)
      && closedSignals == if hasBeenClosed then 1 else 0
    }

    constructor ()
      ensures Valid() && View() == FRESH_PEER
    {
      lastRequestId, pendingResponses := 1, [];
      queryHandlers, lastHandlerId, handling := map[], 1, map[];
      reading, hasBeenClosed, closedSignals, completed := true, false, 0, [];
    }

    method RegisterQueryHandler(verb: string, argumentType: Option<string>) returns (tag: nat)
      requires Valid() && verb !in queryHandlers
      modifies this
      ensures Valid() && View() == Registered(old(View()), verb, argumentType)
      ensures tag == old(lastHandlerId) && queryHandlers == old(queryHandlers)[verb := Handler(tag, argumentType)]
    {
      tag := lastHandlerId;
      lastHandlerId := lastHandlerId + 1;
      queryHandlers := queryHandlers[verb := Handler(tag, argumentType)];
    }

    method UnregisterQueryHandler(handlerTag: nat)
      requires Valid()
      modifies this
      ensures Valid() && View() == Unregistered(old(View()), handlerTag)
      ensures forall v :: v in queryHandlers <==> v in old(queryHandlers) && old(queryHandlers[v].tag) != handlerTag
      ensures forall v :: v in queryHandlers ==> queryHandlers[v] == old(queryHandlers)[v]
    {
      var matchingId := None;
      var entries := queryHandlers.Keys;
      while entries != {}
        invariant entries <= queryHandlers.Keys && matchingId == None
        invariant forall v :: v in queryHandlers.Keys - entries ==> queryHandlers[v].tag != handlerTag
      {
        var verb :| verb in entries;
        if queryHandlers[verb].tag == handlerTag {
          matchingId := Some(verb);
          break;
        }
        entries := entries - {verb};
      }
      if matchingId != None {
        queryHandlers := queryHandlers - {matchingId.value};
      }
      assert queryHandlers == Unregistered(old(View()), handlerTag).handlers;
    }

    /** The part of `query` before it suspends: the message to write. */
    method SendRequest(query: Query) returns (m: Message)
      modifies this`lastRequestId, this`pendingResponses
      ensures View() == Sent(old(View()), query)
      ensures lastRequestId == old(lastRequestId) + 1
      ensures pendingResponses == old(pendingResponses) + [Pending(old(lastRequestId), query)]
      ensures m == Request(old(lastRequestId), query.verb, query.argument)
    {
      var requestId := lastRequestId;
      lastRequestId := lastRequestId + 1;
      pendingResponses := pendingResponses + [Pending(requestId, query)];
      m := Request(requestId, query.verb, query.argument);
    }

    /** The part of `process_request` up to the handler's first suspension. */
    method ProcessRequest(id: nat, verb: string, argument: Option<Variant>) returns (reply: Option<Message>)
      modifies this`handling
      ensures View() == Requested(old(View()), id, verb, argument)
      ensures var accepted := verb in queryHandlers && HasSameType(queryHandlers[verb].argumentType, argument);
              && reply == (if accepted then None else Some(Response(id, false, None)))
              && handling == if accepted then old(handling)[id := Activation(verb, argument)] else old(handling)
    {
      var success := false;
      if verb in queryHandlers {
        success := HasSameType(queryHandlers[verb].argumentType, argument);
      }
      if success {
        handling := handling[id := Activation(verb, argument)];
        return None;
      }
      return Some(Response(id, false, None));
    }

    /** The handler returns and `process_request` writes its response. */
    method FinishRequest(id: nat, value: Option<Variant>) returns (reply: Message)
      requires id in handling
      modifies this`handling
      ensures View() == Handled(old(View()), id)
      ensures reply == Response(id, true, value) && handling == old(handling) - {id}
    {
      handling := handling - {id};
      reply := Response(id, true, value);
    }

    method ProcessResponse(id: nat, success: bool, value: Option<Variant>)
      modifies this`pendingResponses, this`completed
      ensures View() == Answered(old(View()), id, success, value)
      ensures var k := FindPending(old(pendingResponses), id);
              if k == |old(pendingResponses)| then
                pendingResponses == old(pendingResponses) && completed == old(completed)
              else
                var query := old(pendingResponses)[k].query;
                && pendingResponses == old(pendingResponses)[..k] + old(pendingResponses)[k + 1..]
                && completed == old(completed) + [Completion(id, if !success then InvalidQuery
                                                                 else if HasSameType(query.responseType, value)
                                                                 then Reply(value) else InvalidResponse)]
    {
      var i := 0;
      while i < |pendingResponses|
        invariant i <= FindPending(pendingResponses, id)
        invariant pendingResponses == old(pendingResponses) && completed == old(completed)
      {
        if pendingResponses[i].id == id {
          completed := completed + [Completion(id, QueryOutcome(pendingResponses[i].query, success, value))];
          break;
        }
        i := i + 1;
      }
      if i < |pendingResponses| {
        pendingResponses := pendingResponses[..i] + pendingResponses[i + 1..];
      }
    }

    /** `close`, and the end of the message loop on a failed read. */
    method Stop()
      requires Valid()
      modifies this`reading, this`hasBeenClosed, this`closedSignals
      ensures Valid() && View() == Stopped(old(View())) && !reading && hasBeenClosed && closedSignals == 1
    {
      reading := false;
      if hasBeenClosed {
        return;
      }
      hasBeenClosed := true;
      closedSignals := closedSignals + 1;
    }
  }

  /** A query resumed by `complete` may send further queries before its own entry is removed from the list:
      both orders leave the same proxy. */
  lemma ResumedQueryMayAskAgain(p: Peer, id: nat, success: bool, value: Option<Variant>, again: Query)
    requires id < p.lastRequestId
    ensures Sent(Answered(p, id, success, value), again) == Answered(Sent(p, again), id, success, value)
  {
    hide FindPending, QueryOutcome;
    var last := Pending(p.lastRequestId, again);
    var i := FindPending(p.pending, id);
    FindAfterAppend(p.pending, last, id);
    if i < |p.pending| {
      RemoveBeforeLast(p.pending, last, i);
    }
  }

  lemma RemoveBeforeLast(pending: seq<Pending<Query>>, last: Pending<Query>, i: nat)
    requires i < |pending|
    ensures (pending + [last])[i] == pending[i]
    ensures (pending + [last])[..i] + (pending + [last])[i + 1..] == pending[..i] + pending[i + 1..] + [last]
  {
  }

  lemma {:induction false} FindAfterAppend(pending: seq<Pending<Query>>, last: Pending<Query>, id: nat)
    requires last.id != id
    ensures FindPending(pending + [last], id)
         == if FindPending(pending, id) == |pending| then |pending| + 1 else FindPending(pending, id)
  {
    if pending != [] && pending[0].id != id {
      assert (pending + [last])[1..] == pending[1..] + [last];
      FindAfterAppend(pending[1..], last, id);
    }
  }

  ghost predicate IsPending(p: Peer, id: nat) {
    exists i :: 0 <= i < |p.pending| && p.pending[i].id == id
  }

  lemma SentPending(p: Peer, query: Query, id: nat)
    ensures IsPending(Sent(p, query), id) <==> IsPending(p, id) || id == p.lastRequestId
  {
    var q := Sent(p, query);
    assert q.pending[|p.pending|].id == p.lastRequestId;
    if IsPending(p, id) {
      var i :| 0 <= i < |p.pending| && p.pending[i].id == id;
      assert q.pending[i].id == id;
    }
  }

  /** With distinct ids, an answer removes exactly the query it names. */
  lemma AnsweredPending(p: Peer, id: nat, success: bool, value: Option<Variant>, j: nat)
    requires forall a, b :: 0 <= a < b < |p.pending| ==> p.pending[a].id != p.pending[b].id
    ensures IsPending(Answered(p, id, success, value), j) <==> IsPending(p, j) && j != id
  {
    var q := Answered(p, id, success, value);
    var i := FindPending(p.pending, id);
    if i < |p.pending| {
      assert forall k :: 0 <= k < |q.pending| ==> q.pending[k] == p.pending[if k < i then k else k + 1];
      if IsPending(p, j) && j != id {
        var k :| 0 <= k < |p.pending| && p.pending[k].id == j;
        assert q.pending[if k < i then k else k - 1].id == j;
      }
    }
  }
}
