/** Two proxies, the messages between them, and every interleaving of their steps. */
module WinIpcNetwork {
  import opened Outcomes
  import opened PendingResponses
  import opened WinIpcProxy

  datatype Side = Left | Right

  function Other(side: Side): Side {
    if side == Left then Right else Left
  }

  datatype Two<T> = Two(left: T, right: T) {
    function At(side: Side): T {
      if side == Left then left else right
    }

    function With(side: Side, v: T): Two<T> {
      if side == Left then Two(v, right) else Two(left, v)
    }
  }

  datatype Status = InProgress | Settled(success: bool, value: Option<Variant>)

  /** How a query was met: the handlers registered when it was processed, and the answer if there is one. */
  datatype Service = Service(handlersThen: map<string, Handler>, status: Status)

  /** `inbox` holds the messages under way to a side, in any order. The last two fields are history, kept
      per asking side: the queries it issued, and what the other side did with them. */
  datatype System = System(
    peers: Two<Peer>,
    inbox: Two<multiset<Message>>,
    issued: Two<map<nat, Query>>,
    served: Two<map<nat, Service>>)

  const START := System(
    Two(FRESH_PEER, FRESH_PEER), Two(multiset{}, multiset{}), Two(map[], map[]), Two(map[], map[]))

  /** No close or read failure has happened at either end. */
  predicate Healthy(s: System) {
    s.peers.left.reading && s.peers.right.reading
  }

  datatype Step =
    | Ask(side: Side, query: Query)
    | Deliver(side: Side, m: Message)
    | Finish(side: Side, id: nat, value: Option<Variant>)
    | Register(side: Side, verb: string, argumentType: Option<string>)
    | Unregister(side: Side, tag: nat)
    | Stop(side: Side)

  /** A message written to `side`; it arrives only over a healthy pipe. */
  function Post(s: System, side: Side, m: Message): System {
    if Healthy(s) then s.(inbox := s.inbox.With(side, s.inbox.At(side) + multiset{m})) else s
  }

  /** Records that a handler has returned `value` for a query. */
  function Answers(served: map<nat, Service>, id: nat, value: Option<Variant>): map<nat, Service> {
    if id in served then served[id := served[id].(status := Settled(true, value))] else served
  }

  /** One step; a step that cannot happen in `s` leaves it as it is. A synchronous handler is one that
      finishes right after its request is delivered. */
  function Next(s: System, step: Step): System {
    var side, other := step.side, Other(step.side);
    var p := s.peers.At(side);
    match step
    case Ask(_, query) =>
      Post(s.(peers := s.peers.With(side, Sent(p, query)),
              issued := s.issued.With(side, s.issued.At(side)[p.lastRequestId := query])),
           other, Request(p.lastRequestId, query.verb, query.argument))
    case Deliver(_, m) =>
      if !p.reading || m !in s.inbox.At(side) then s
      else Receive(s.(inbox := s.inbox.With(side, s.inbox.At(side) - multiset{m})), side, m)
    case Finish(_, id, value) =>
      if id !in p.handling then s
      else
        Post(s.(peers := s.peers.With(side, Handled(p, id)),
                served := s.served.With(other, Answers(s.served.At(other), id, value))),
             other, Response(id, true, value))
    case Register(_, verb, argumentType) =>
      if verb in p.handlers then s else s.(peers := s.peers.With(side, Registered(p, verb, argumentType)))
    case Unregister(_, tag) => s.(peers := s.peers.With(side, Unregistered(p, tag)))
    case Stop(_) => s.(peers := s.peers.With(side, Stopped(p)))
  }

  /** `side` processes a message just taken from its inbox. */
  function Receive(s: System, side: Side, m: Message): System {
    var other := Other(side);
    var p := s.peers.At(side);
    match m
    case Response(id, success, value) => s.(peers := s.peers.With(side, Answered(p, id, success, value)))
    case Request(id, verb, argument) =>
      var verdict := Judge(p.handlers, verb, argument);
      var status := if verdict == Rejected then Settled(false, None) else InProgress;
      var t := s.(peers := s.peers.With(side, Requested(p, id, verb, argument)),
                  served := s.served.With(other, s.served.At(other)[id := Service(p.handlers, status)]));
      if verdict == Rejected then Post(t, other, Refusal(id)) else t
  }

  function Run(steps: seq<Step>): System {
    if steps == [] then START else Next(Run(steps[..|steps| - 1]), steps[|steps| - 1])
  }

  // ---- The invariant, for the queries of one side.

  /** One side's queries: the asker, the history of its queries, the handlers working on them, and the
      inboxes of both sides (which also hold the traffic of the other direction). */
  datatype Direction = Direction(
    p: Peer, issued: map<nat, Query>, served: map<nat, Service>, handling: map<nat, Activation>,
    requests: multiset<Message>, responses: multiset<Message>, healthy: bool)

  ghost function DirectionOf(s: System, side: Side): Direction {
    Direction(s.peers.At(side), s.issued.At(side), s.served.At(side), s.peers.At(Other(side)).handling,
              s.inbox.At(Other(side)), s.inbox.At(side), Healthy(s))
  }

  function RequestOf(issued: map<nat, Query>, id: nat): Message
    requires id in issued
  {
    Request(id, issued[id].verb, issued[id].argument)
  }

  /** The verdict on a served query under the handlers of the moment it was processed. */
  function VerdictOn(d: Direction, id: nat): Verdict
    requires id in d.served && id in d.issued
  {
    Judge(d.served[id].handlersThen, d.issued[id].verb, d.issued[id].argument)
  }

  /** Ids are distinct, below `last_request_id`, and stand for the queries issued under them. */
  ghost predicate AskerInv(d: Direction) {
    && 1 <= d.p.lastRequestId
    && (forall id :: id in d.issued <==> 1 <= id < d.p.lastRequestId)
    && (forall i :: 0 <= i < |d.p.pending| ==>
          d.p.pending[i].id in d.issued && d.issued[d.p.pending[i].id] == d.p.pending[i].query)
    && (forall i, j :: 0 <= i < j < |d.p.pending| ==> d.p.pending[i].id != d.p.pending[j].id)
  }

  /** Nothing is under way but the requests not yet served and the answers given, once each, all of them
      to queries that are still pending. */
  ghost predicate UnderWayInv(d: Direction) {
    && (forall m :: m in d.requests && m.Request? ==>
          && d.requests[m] == 1 && IsPending(d.p, m.id)
          && m.id in d.issued && m == RequestOf(d.issued, m.id) && m.id !in d.served)
    && (forall m :: m in d.responses && m.Response? ==>
          && d.responses[m] == 1 && IsPending(d.p, m.id)
          && m.id in d.served && d.served[m.id].status == Settled(m.success, m.value))
  }

  /** Handlers work on pending queries, with their own verb and argument; a query was answered with failure
      iff the handlers of the moment it was processed had none to match it. */
  ghost predicate ServiceInv(d: Direction) {
    && (forall id :: id in d.served ==> id in d.issued)
    && (forall id :: id in d.handling ==>
          && id in d.served && d.served[id].status == InProgress && IsPending(d.p, id)
          && VerdictOn(d, id) == Accepted
          && d.handling[id] == Activation(d.issued[id].verb, d.issued[id].argument))
    && (forall id :: id in d.served && d.served[id].status.Settled? ==>
          VerdictOn(d, id) == if d.served[id].status.success then Accepted else Rejected)
  }

  /** Over a healthy pipe nothing gets lost. */
  ghost predicate NothingLost(d: Direction) {
    forall id :: IsPending(d.p, id) && id in d.issued ==>
      if id !in d.served then RequestOf(d.issued, id) in d.requests
      else
        match d.served[id].status
        case InProgress => id in d.handling
        case Settled(success, value) => Response(id, success, value) in d.responses
  }

  ghost predicate IsCompleted(p: Peer, id: nat) {
    exists i :: 0 <= i < |p.completed| && p.completed[i].id == id
  }

  /** Each query ends at most once, and as its service says. */
  ghost predicate CompletionInv(d: Direction) {
    && (forall i, j :: 0 <= i < j < |d.p.completed| ==> d.p.completed[i].id != d.p.completed[j].id)
    && (forall i :: 0 <= i < |d.p.completed| ==> ProperCompletion(d, d.p.completed[i]))
    && (forall id :: id in d.issued ==> IsPending(d.p, id) || IsCompleted(d.p, id))
  }

  ghost predicate ProperCompletion(d: Direction, c: Completion) {
    && !IsPending(d.p, c.id) && c.id in d.issued && c.id in d.served && d.served[c.id].status.Settled?
    && c.outcome == QueryOutcome(d.issued[c.id], d.served[c.id].status.success, d.served[c.id].status.value)
  }

  ghost predicate DirectionInv(d: Direction) {
    AskerInv(d) && UnderWayInv(d) && ServiceInv(d) && CompletionInv(d) && (d.healthy ==> NothingLost(d))
  }

  ghost predicate Inv(s: System) {
    DirectionInv(DirectionOf(s, Left)) && DirectionInv(DirectionOf(s, Right))
  }

  // ---- What one direction sees of each step.

  /** Nothing of this direction has changed but, perhaps, that the pipe broke. */
  ghost predicate Unmoved(d: Direction, e: Direction) {
    && d.p.pending == e.p.pending && d.p.lastRequestId == e.p.lastRequestId && d.p.completed == e.p.completed
    && d.issued == e.issued && d.served == e.served && d.handling == e.handling
    && (forall m: Message :: m.Request? ==> d.requests[m] == e.requests[m])
    && (forall m: Message :: m.Response? ==> d.responses[m] == e.responses[m])
    && (e.healthy ==> d.healthy)
  }

  lemma UnmovedInv(d: Direction, e: Direction)
    requires DirectionInv(d) && Unmoved(d, e)
    ensures DirectionInv(e)
  {
    assert AskerInv(e);
    assert forall id :: IsPending(d.p, id) <==> IsPending(e.p, id);
    hide AskerInv, UnderWayInv, ServiceInv, CompletionInv, NothingLost;
    UnmovedUnderWay(d, e);
    UnmovedService(d, e);
    UnmovedCompletion(d, e);
    if e.healthy { UnmovedLost(d, e); }
  }

  lemma UnmovedService(d: Direction, e: Direction)
    requires ServiceInv(d) && Unmoved(d, e) && forall id :: IsPending(d.p, id) <==> IsPending(e.p, id)
    ensures ServiceInv(e)
  {
    assert forall id :: id in d.served && id in d.issued ==> VerdictOn(e, id) == VerdictOn(d, id);
  }

  lemma UnmovedLost(d: Direction, e: Direction)
    requires NothingLost(d) && Unmoved(d, e) && forall id :: IsPending(d.p, id) <==> IsPending(e.p, id)
    ensures NothingLost(e)
  {
    assert forall m: Message :: m.Request? && m in d.requests ==> m in e.requests;
    assert forall m: Message :: m.Response? && m in d.responses ==> m in e.responses;
  }

  lemma UnmovedUnderWay(d: Direction, e: Direction)
    requires UnderWayInv(d) && Unmoved(d, e) && forall id :: IsPending(d.p, id) <==> IsPending(e.p, id)
    ensures UnderWayInv(e)
  {
    assert forall m: Message :: m.Request? && m in e.requests ==> m in d.requests;
    assert forall m: Message :: m.Response? && m in e.responses ==> m in d.responses;
  }

  lemma UnmovedCompletion(d: Direction, e: Direction)
    requires CompletionInv(d) && Unmoved(d, e) && forall id :: IsPending(d.p, id) <==> IsPending(e.p, id)
    ensures CompletionInv(e)
  {
    assert forall id :: IsCompleted(d.p, id) <==> IsCompleted(e.p, id);
    assert forall c :: ProperCompletion(d, c) ==> ProperCompletion(e, c);
  }

  ghost function Asked(d: Direction, query: Query): Direction {
    var id := d.p.lastRequestId;
    d.(p := Sent(d.p, query), issued := d.issued[id := query],
       requests := d.requests + if d.healthy then multiset{Request(id, query.verb, query.argument)} else multiset{})
  }

  lemma AskedInv(d: Direction, query: Query)
    requires DirectionInv(d)
    ensures DirectionInv(Asked(d, query))
  {
    AskedIsPending(d, query);
    hide AskedPending;
    AskedAsker(d, query);
    AskedCompletion(d, query);
    AskedUnderWay(d, query);
    AskedService(d, query);
    if d.healthy { AskedLost(d, query); }
    hide AskerInv, UnderWayInv, ServiceInv, CompletionInv, NothingLost;
  }

  lemma AskedIsPending(d: Direction, query: Query)
    requires AskerInv(d)
    ensures AskedPending(d, query)
  {
    forall id ensures IsPending(Asked(d, query).p, id) <==> IsPending(d.p, id) || id == d.p.lastRequestId {
      SentPending(d.p, query, id);
    }
  }

  lemma AskedAsker(d: Direction, query: Query)
    requires AskerInv(d)
    ensures AskerInv(Asked(d, query))
  {
  }

  /** The new id is nobody else's, and now pending. */
  ghost predicate AskedPending(d: Direction, query: Query) {
    && (forall id :: IsPending(Asked(d, query).p, id) <==> IsPending(d.p, id) || id == d.p.lastRequestId)
    && (forall id :: IsPending(d.p, id) ==> id in d.issued)
    && d.p.lastRequestId !in d.issued
  }

  lemma AskedUnderWay(d: Direction, query: Query)
    requires UnderWayInv(d) && ServiceInv(d) && AskedPending(d, query)
    ensures UnderWayInv(Asked(d, query))
  {
    hide NothingLost, CompletionInv;
    assert d.p.lastRequestId !in d.served;
  }

  lemma AskedService(d: Direction, query: Query)
    requires ServiceInv(d) && AskedPending(d, query)
    ensures ServiceInv(Asked(d, query))
  {
    assert forall id :: id in d.served ==> VerdictOn(Asked(d, query), id) == VerdictOn(d, id);
  }

  lemma AskedLost(d: Direction, query: Query)
    requires d.healthy && NothingLost(d) && ServiceInv(d) && AskedPending(d, query)
    ensures NothingLost(Asked(d, query))
  {
  }

  lemma AskedCompletion(d: Direction, query: Query)
    requires CompletionInv(d) && AskedPending(d, query)
    ensures CompletionInv(Asked(d, query))
  {
    var e := Asked(d, query);
    assert forall id :: IsCompleted(d.p, id) <==> IsCompleted(e.p, id);
    assert forall c :: ProperCompletion(d, c) ==> ProperCompletion(e, c);
  }

  /** A request is taken from the inbox and judged by `handlers`. */
  ghost function Served(d: Direction, id: nat, handlers: map<string, Handler>): Direction
    requires id in d.issued
  {
    var t := d.(requests := d.requests - multiset{RequestOf(d.issued, id)});
    match Judge(handlers, d.issued[id].verb, d.issued[id].argument)
    case Accepted => Started(t, id, handlers)
    case Rejected => Refused(t, id, handlers)
  }

  ghost function Started(d: Direction, id: nat, handlers: map<string, Handler>): Direction
    requires id in d.issued
  {
    d.(served := d.served[id := Service(handlers, InProgress)],
       handling := d.handling[id := Activation(d.issued[id].verb, d.issued[id].argument)])
  }

  ghost function Refused(d: Direction, id: nat, handlers: map<string, Handler>): Direction {
    d.(served := d.served[id := Service(handlers, Settled(false, None))],
       responses := d.responses + if d.healthy then multiset{Refusal(id)} else multiset{})
  }

  lemma ServedInv(d: Direction, id: nat, handlers: map<string, Handler>)
    requires DirectionInv(d) && id in d.issued && RequestOf(d.issued, id) in d.requests
    ensures DirectionInv(Served(d, id, handlers))
  {
    hide AskerInv, UnderWayInv, ServiceInv, CompletionInv, NothingLost, Judge, IsPending, Served;
    RequestIsNew(d, id);
    ServedFrame(d, id, handlers);
    SameAsker(d, Served(d, id, handlers));
    NewServiceKeepsCompletions(d, Served(d, id, handlers), id);
    ServedUnderWay(d, id, handlers);
    ServedService(d, id, handlers);
    if Served(d, id, handlers).healthy { ServedLost(d, id, handlers); }
  }

  /** Only the service of `id` differs, and it exists now. */
  ghost predicate ServesOnly(d: Direction, e: Direction, id: nat) {
    && e.p == d.p && e.issued == d.issued && id in e.served
    && (forall j :: j != id ==> (j in e.served <==> j in d.served))
    && (forall j :: j in d.served && j != id ==> e.served[j] == d.served[j])
  }

  lemma BranchFrames(d: Direction, id: nat, handlers: map<string, Handler>)
    requires id in d.issued
    ensures ServesOnly(d, Started(d, id, handlers), id)
    ensures ServesOnly(d, Refused(d, id, handlers), id)
  {
  }

  lemma ServedFrame(d: Direction, id: nat, handlers: map<string, Handler>)
    requires id in d.issued
    ensures ServesOnly(d, Served(d, id, handlers), id)
    ensures Served(d, id, handlers).healthy ==> d.healthy
  {
    hide Judge;
    var t := d.(requests := d.requests - multiset{RequestOf(d.issued, id)});
    BranchFrames(t, id, handlers);
    assert ServesOnly(t, Served(d, id, handlers), id);
    hide Served, Started, Refused;
  }

  lemma RequestIsNew(d: Direction, id: nat)
    requires UnderWayInv(d) && ServiceInv(d) && id in d.issued && RequestOf(d.issued, id) in d.requests
    ensures id !in d.served && id !in d.handling && IsPending(d.p, id)
  {
  }

  lemma SameAsker(d: Direction, e: Direction)
    requires AskerInv(d) && e.p == d.p && e.issued == d.issued
    ensures AskerInv(e)
  {
  }

  /** The part of `ServiceInv` about one query. */
  ghost predicate ServiceOf(d: Direction, id: nat) {
    && (id in d.served ==> id in d.issued)
    && (id in d.handling ==>
          && id in d.served && d.served[id].status == InProgress && IsPending(d.p, id)
          && VerdictOn(d, id) == Accepted
          && d.handling[id] == Activation(d.issued[id].verb, d.issued[id].argument))
    && (id in d.served && d.served[id].status.Settled? ==>
          VerdictOn(d, id) == if d.served[id].status.success then Accepted else Rejected)
  }

  lemma ServiceFromParts(d: Direction)
    ensures ServiceInv(d) <==> forall id: nat :: ServiceOf(d, id)
  {
    if ServiceInv(d) {
      assert forall id: nat :: ServiceOf(d, id);
    }
    if forall id: nat :: ServiceOf(d, id) {
      assert forall id :: id in d.served ==> ServiceOf(d, id);
      assert forall id :: id in d.handling ==> ServiceOf(d, id);
    }
  }

  lemma ServedServiceOf(d: Direction, id: nat, handlers: map<string, Handler>, j: nat)
    requires ServiceOf(d, j) && id in d.issued && id !in d.served && id !in d.handling && IsPending(d.p, id)
    ensures ServiceOf(Served(d, id, handlers), j)
  {
    hide Judge, IsPending;
    var t := d.(requests := d.requests - multiset{RequestOf(d.issued, id)});
    assert ServiceOf(t, j);
    match Judge(handlers, d.issued[id].verb, d.issued[id].argument)
    case Accepted => StartedServiceOf(t, id, handlers, j);
    case Rejected => RefusedServiceOf(t, id, handlers, j);
  }

  lemma StartedServiceOf(d: Direction, id: nat, handlers: map<string, Handler>, j: nat)
    requires ServiceOf(d, j) && id in d.issued && IsPending(d.p, id)
    requires Judge(handlers, d.issued[id].verb, d.issued[id].argument) == Accepted
    ensures ServiceOf(Started(d, id, handlers), j)
  {
    hide Judge, IsPending;
  }

  lemma RefusedServiceOf(d: Direction, id: nat, handlers: map<string, Handler>, j: nat)
    requires ServiceOf(d, j) && id in d.issued && id !in d.handling
    requires Judge(handlers, d.issued[id].verb, d.issued[id].argument) == Rejected
    ensures ServiceOf(Refused(d, id, handlers), j)
  {
    hide Judge, IsPending;
  }

  lemma ServedService(d: Direction, id: nat, handlers: map<string, Handler>)
    requires ServiceInv(d) && id in d.issued && id !in d.served && id !in d.handling && IsPending(d.p, id)
    ensures ServiceInv(Served(d, id, handlers))
  {
    ServiceFromParts(d);
    ServiceFromParts(Served(d, id, handlers));
    hide ServiceInv, ServiceOf, Served;
    forall j: nat ensures ServiceOf(Served(d, id, handlers), j) {
      ServedServiceOf(d, id, handlers, j);
    }
  }

  lemma ServedLost(d: Direction, id: nat, handlers: map<string, Handler>)
    requires NothingLost(d) && d.healthy && id in d.issued && Served(d, id, handlers).healthy
    requires id in d.issued && id !in d.served && id !in d.handling && RequestOf(d.issued, id) in d.requests
    ensures NothingLost(Served(d, id, handlers))
  {
  }

  lemma ServedUnderWay(d: Direction, id: nat, handlers: map<string, Handler>)
    requires UnderWayInv(d) && id in d.issued && RequestOf(d.issued, id) in d.requests
    ensures UnderWayInv(Served(d, id, handlers))
  {
    hide Judge, IsPending;
    assert IsPending(d.p, id) && id !in d.served;
    var t := d.(requests := d.requests - multiset{RequestOf(d.issued, id)});
    match Judge(handlers, d.issued[id].verb, d.issued[id].argument)
    case Accepted => StartedUnderWay(d, id, handlers);
    case Rejected => RefusedUnderWay(d, id, handlers);
  }

  lemma StartedUnderWay(d: Direction, id: nat, handlers: map<string, Handler>)
    requires UnderWayInv(d) && id in d.issued && id !in d.served && RequestOf(d.issued, id) in d.requests
    ensures UnderWayInv(Started(d.(requests := d.requests - multiset{RequestOf(d.issued, id)}), id, handlers))
  {
    hide IsPending;
  }

  lemma RefusedUnderWay(d: Direction, id: nat, handlers: map<string, Handler>)
    requires UnderWayInv(d) && id in d.issued && id !in d.served && RequestOf(d.issued, id) in d.requests
    requires IsPending(d.p, id)
    ensures UnderWayInv(Refused(d.(requests := d.requests - multiset{RequestOf(d.issued, id)}), id, handlers))
  {
    hide IsPending;
  }

  /** A change to the service of a query not completed leaves the completions right. */
  lemma NewServiceKeepsCompletions(d: Direction, e: Direction, id: nat)
    requires CompletionInv(d) && IsPending(d.p, id) && ServesOnly(d, e, id)
    ensures CompletionInv(e)
  {
    assert forall c :: ProperCompletion(d, c) ==> ProperCompletion(e, c);
  }

  ghost function Finished(d: Direction, id: nat, value: Option<Variant>): Direction
    requires id in d.served
  {
    d.(handling := d.handling - {id}, served := d.served[id := d.served[id].(status := Settled(true, value))],
       responses := d.responses + if d.healthy then multiset{Response(id, true, value)} else multiset{})
  }

  lemma FinishedInv(d: Direction, id: nat, value: Option<Variant>)
    requires DirectionInv(d) && id in d.handling && id in d.served
    ensures DirectionInv(Finished(d, id, value))
  {
    assert AskerInv(Finished(d, id, value)) && id in d.issued && VerdictOn(d, id) == Accepted;
    assert d.served[id].status == InProgress && IsPending(d.p, id);
    hide AskerInv, UnderWayInv, ServiceInv, CompletionInv, NothingLost;
    NewServiceKeepsCompletions(d, Finished(d, id, value), id);
    FinishedUnderWay(d, id, value);
    FinishedService(d, id, value);
    if d.healthy { FinishedLost(d, id, value); }
  }

  lemma FinishedService(d: Direction, id: nat, value: Option<Variant>)
    requires ServiceInv(d) && id in d.handling && id in d.served
    ensures ServiceInv(Finished(d, id, value))
  {
    ServiceFromParts(d);
    ServiceFromParts(Finished(d, id, value));
    hide ServiceInv, ServiceOf, Finished;
    assert ServiceOf(d, id);
    forall j: nat ensures ServiceOf(Finished(d, id, value), j) {
      FinishedServiceOf(d, id, value, j);
    }
  }

  lemma FinishedServiceOf(d: Direction, id: nat, value: Option<Variant>, j: nat)
    requires ServiceOf(d, j) && ServiceOf(d, id) && id in d.handling && id in d.served
    ensures ServiceOf(Finished(d, id, value), j)
  {
    hide Judge, IsPending;
  }

  lemma FinishedLost(d: Direction, id: nat, value: Option<Variant>)
    requires d.healthy && NothingLost(d) && id in d.served
    ensures NothingLost(Finished(d, id, value))
  {
  }

  lemma FinishedUnderWay(d: Direction, id: nat, value: Option<Variant>)
    requires UnderWayInv(d) && id in d.served && d.served[id].status == InProgress && IsPending(d.p, id)
    ensures UnderWayInv(Finished(d, id, value))
  {
  }

  ghost function Closed(d: Direction, m: Message): Direction
    requires m.Response?
  {
    d.(p := Answered(d.p, m.id, m.success, m.value), responses := d.responses - multiset{m})
  }

  lemma ClosedInv(d: Direction, m: Message)
    requires DirectionInv(d) && m in d.responses && m.Response?
    ensures DirectionInv(Closed(d, m))
  {
    var e := Closed(d, m);
    forall j: nat ensures IsPending(e.p, j) <==> IsPending(d.p, j) && j != m.id {
      AnsweredPending(d.p, m.id, m.success, m.value, j);
    }
    ClosedAsker(d, m);
    ClosedUnderWay(d, m);
    ClosedCompletion(d, m);
    ClosedService(d, m);
    if d.healthy { ClosedLost(d, m); }
    hide AskerInv, UnderWayInv, ServiceInv, CompletionInv, NothingLost;
  }

  lemma ClosedService(d: Direction, m: Message)
    requires ServiceInv(d) && UnderWayInv(d) && m in d.responses && m.Response?
    requires forall j: nat :: IsPending(Closed(d, m).p, j) <==> IsPending(d.p, j) && j != m.id
    ensures ServiceInv(Closed(d, m))
  {
    assert forall id :: id in d.served ==> VerdictOn(Closed(d, m), id) == VerdictOn(d, id);
  }

  lemma ClosedLost(d: Direction, m: Message)
    requires NothingLost(d) && m.Response?
    requires forall j: nat :: IsPending(Closed(d, m).p, j) <==> IsPending(d.p, j) && j != m.id
    ensures NothingLost(Closed(d, m))
  {
  }

  lemma ClosedAsker(d: Direction, m: Message)
    requires AskerInv(d) && m.Response?
    ensures AskerInv(Closed(d, m))
  {
    hide FindPending, QueryOutcome;
    var i := FindPending(d.p.pending, m.id);
    var e := Closed(d, m);
    if i < |d.p.pending| {
      forall k | 0 <= k < |e.p.pending| ensures e.p.pending[k] == d.p.pending[if k < i then k else k + 1] {
      }
      hide Closed, Answered;
    }
  }

  lemma ClosedUnderWay(d: Direction, m: Message)
    requires UnderWayInv(d) && m in d.responses && m.Response?
    requires forall j: nat :: IsPending(Closed(d, m).p, j) <==> IsPending(d.p, j) && j != m.id
    ensures UnderWayInv(Closed(d, m))
  {
    assert forall x :: x in d.responses && x.Response? && x.id == m.id ==> x == m;
  }

  lemma ClosedCompletion(d: Direction, m: Message)
    requires AskerInv(d) && UnderWayInv(d) && CompletionInv(d) && m in d.responses && m.Response?
    requires forall j: nat :: IsPending(Closed(d, m).p, j) <==> IsPending(d.p, j) && j != m.id
    ensures CompletionInv(Closed(d, m))
  {
    var e := Closed(d, m);
    assert !IsPending(e.p, m.id);
    var c := ClosedLog(d, m);
    assert ProperCompletion(e, c);
    hide Closed, AskerInv, UnderWayInv, QueryOutcome;
    assert forall x :: ProperCompletion(d, x) ==> ProperCompletion(e, x);
    LogGrows(d.p, e.p, c);
  }

  lemma ClosedLog(d: Direction, m: Message) returns (c: Completion)
    requires AskerInv(d) && UnderWayInv(d) && m in d.responses && m.Response?
    ensures m.id in d.issued && m.id in d.served && d.served[m.id].status == Settled(m.success, m.value)
    ensures c == Completion(m.id, QueryOutcome(d.issued[m.id], m.success, m.value))
    ensures var e := Closed(d, m); e.p.completed == d.p.completed + [c] && e.issued == d.issued && e.served == d.served
  {
    var i := FindPending(d.p.pending, m.id);
    assert i < |d.p.pending|;
    hide FindPending;
    c := Completion(m.id, QueryOutcome(d.p.pending[i].query, m.success, m.value));
    hide QueryOutcome;
  }

  lemma LogGrows(p: Peer, q: Peer, c: Completion)
    requires q.completed == p.completed + [c]
    ensures forall id :: IsCompleted(q, id) <==> IsCompleted(p, id) || id == c.id
  {
    assert q.completed[|p.completed|] == c;
    forall id | IsCompleted(p, id) ensures IsCompleted(q, id) {
      var k :| 0 <= k < |p.completed| && p.completed[k].id == id;
      assert q.completed[k].id == id;
    }
  }

  // ---- Every step, every run.

  lemma AskEffect(s: System, at: Side, query: Query, side: Side)
    ensures var d, e := DirectionOf(s, side), DirectionOf(Next(s, Ask(at, query)), side);
            if at == side then e == Asked(d, query) else Unmoved(d, e)
  {
  }

  lemma FinishEffect(s: System, at: Side, id: nat, value: Option<Variant>, side: Side)
    ensures var d, e := DirectionOf(s, side), DirectionOf(Next(s, Finish(at, id, value)), side);
            (id in d.handling ==> id in d.served) ==>
              if at == Other(side) && id in d.handling then e == Finished(d, id, value) else Unmoved(d, e)
  {
    if at == side { FinishForOther(s, at, id, value); } else { FinishForSide(s, side, id, value); }
  }

  lemma FinishForOther(s: System, at: Side, id: nat, value: Option<Variant>)
    ensures Unmoved(DirectionOf(s, at), DirectionOf(Next(s, Finish(at, id, value)), at))
  {
  }

  lemma FinishForSide(s: System, side: Side, id: nat, value: Option<Variant>)
    ensures var d, e := DirectionOf(s, side), DirectionOf(Next(s, Finish(Other(side), id, value)), side);
            (id in d.handling ==> id in d.served) ==>
              if id in d.handling then e == Finished(d, id, value) else e == d
  {
  }

  /** A message taken from the inbox: the state before the proxy looks at it. */
  function Taken(s: System, at: Side, m: Message): System {
    s.(inbox := s.inbox.With(at, s.inbox.At(at) - multiset{m}))
  }

  lemma RequestEffect(s: System, at: Side, m: Message, side: Side)
    requires m.Request? && s.peers.At(at).reading && m in s.inbox.At(at)
    requires at == Other(side) ==> m.id in s.issued.At(side) && m == RequestOf(s.issued.At(side), m.id)
    ensures var d, e := DirectionOf(s, side), DirectionOf(Next(s, Deliver(at, m)), side);
            if at == Other(side) then Unmoved(Served(d, m.id, s.peers.At(at).handlers), e) else Unmoved(d, e)
  {
    var t := Taken(s, at, m);
    assert Next(s, Deliver(at, m)) == Receive(t, at, m);
    if at == Other(side) {
      var d := DirectionOf(s, side);
      assert DirectionOf(t, side) == d.(requests := d.requests - multiset{RequestOf(d.issued, m.id)});
      AnswererSees(t, at, m);
    } else {
      AskerOfOtherSees(t, at, m);
      hide Receive;
    }
  }

  lemma AnswererSees(t: System, at: Side, m: Message)
    requires m.Request? && m.id in t.issued.At(Other(at)) && m == RequestOf(t.issued.At(Other(at)), m.id)
    ensures var d, e := DirectionOf(t, Other(at)), DirectionOf(Receive(t, at, m), Other(at));
            var handlers := t.peers.At(at).handlers;
            match Judge(handlers, m.verb, m.argument)
            case Accepted => e == Started(d, m.id, handlers)
            case Rejected => e == Refused(d, m.id, handlers)
  {
  }

  lemma AskerOfOtherSees(t: System, at: Side, m: Message)
    requires m.Request?
    ensures Unmoved(DirectionOf(t, at), DirectionOf(Receive(t, at, m), at))
  {
    RefusalIsResponse(m.id);
  }

  lemma RefusalIsResponse(id: nat)
    ensures Refusal(id).Response? && Refusal(id) == Response(id, false, None)
  {
  }

  lemma ResponseEffect(s: System, at: Side, m: Message, side: Side)
    requires m.Response? && s.peers.At(at).reading && m in s.inbox.At(at)
    ensures var d, e := DirectionOf(s, side), DirectionOf(Next(s, Deliver(at, m)), side);
            if at == side then e == Closed(d, m) else Unmoved(d, e)
  {
    hide Closed, Unmoved, Next;
    if at == side { ResponseForSide(s, at, m); } else { ResponseForOther(s, at, m); }
  }

  lemma ResponseForSide(s: System, at: Side, m: Message)
    requires m.Response? && s.peers.At(at).reading && m in s.inbox.At(at)
    ensures DirectionOf(Next(s, Deliver(at, m)), at) == Closed(DirectionOf(s, at), m)
  {
    hide FindPending, QueryOutcome;
    assert Answered(s.peers.At(at), m.id, m.success, m.value).reading == s.peers.At(at).reading;
    assert Answered(s.peers.At(at), m.id, m.success, m.value).handling == s.peers.At(at).handling;
    hide Answered;
  }

  lemma ResponseForOther(s: System, at: Side, m: Message)
    requires m.Response? && s.peers.At(at).reading && m in s.inbox.At(at)
    ensures Unmoved(DirectionOf(s, Other(at)), DirectionOf(Next(s, Deliver(at, m)), Other(at)))
  {
    hide FindPending, QueryOutcome;
    assert Answered(s.peers.At(at), m.id, m.success, m.value).reading == s.peers.At(at).reading;
    assert Answered(s.peers.At(at), m.id, m.success, m.value).handling == s.peers.At(at).handling;
    hide Answered;
  }

  lemma OtherEffect(s: System, step: Step, side: Side)
    requires step.Register? || step.Unregister? || step.Stop?
      || (step.Deliver? && !(s.peers.At(step.side).reading && step.m in s.inbox.At(step.side)))
    ensures Unmoved(DirectionOf(s, side), DirectionOf(Next(s, step), side))
  {
    hide Unmoved, Next;
    match step
    case Register(at, verb, argumentType) => RegisterEffect(s, at, verb, argumentType, side);
    case Unregister(at, tag) => UnregisterEffect(s, at, tag, side);
    case Stop(at) => StopEffect(s, at, side);
    case Deliver(at, m) => NothingDelivered(s, at, m, side);
  }

  lemma RegisterEffect(s: System, at: Side, verb: string, argumentType: Option<string>, side: Side)
    ensures Unmoved(DirectionOf(s, side), DirectionOf(Next(s, Register(at, verb, argumentType)), side))
  {
    hide Unmoved, Next;
    if at == side { RegisterForSide(s, at, verb, argumentType); } else { RegisterForOther(s, at, verb, argumentType); }
  }

  lemma RegisteredHandlers(p: Peer, verb: string, argumentType: Option<string>)
    ensures var q := Registered(p, verb, argumentType);
            q == p.(handlers := q.handlers, lastHandlerId := q.lastHandlerId)
  {
  }

  lemma RegisterForSide(s: System, at: Side, verb: string, argumentType: Option<string>)
    ensures Unmoved(DirectionOf(s, at), DirectionOf(Next(s, Register(at, verb, argumentType)), at))
  {
    RegisteredHandlers(s.peers.At(at), verb, argumentType);
    hide Registered;
  }

  lemma RegisterForOther(s: System, at: Side, verb: string, argumentType: Option<string>)
    ensures Unmoved(DirectionOf(s, Other(at)), DirectionOf(Next(s, Register(at, verb, argumentType)), Other(at)))
  {
    RegisteredHandlers(s.peers.At(at), verb, argumentType);
    hide Registered;
  }

  lemma UnregisterEffect(s: System, at: Side, tag: nat, side: Side)
    ensures Unmoved(DirectionOf(s, side), DirectionOf(Next(s, Unregister(at, tag)), side))
  {
    hide Unregistered;
    UnregisteredHandlers(s.peers.At(at), tag);
  }

  lemma UnregisteredHandlers(p: Peer, tag: nat)
    ensures Unregistered(p, tag) == p.(handlers := Unregistered(p, tag).handlers)
  {
  }

  lemma StopEffect(s: System, at: Side, side: Side)
    ensures Unmoved(DirectionOf(s, side), DirectionOf(Next(s, Stop(at)), side))
  {
  }

  lemma NothingDelivered(s: System, at: Side, m: Message, side: Side)
    requires !(s.peers.At(at).reading && m in s.inbox.At(at))
    ensures Unmoved(DirectionOf(s, side), DirectionOf(Next(s, Deliver(at, m)), side))
  {
    assert Next(s, Deliver(at, m)) == s;
    hide Next;
  }

  /** Whatever the step, one side's queries see one of the five changes above. */
  lemma NextDirectionInv(s: System, step: Step, side: Side)
    requires Inv(s)
    ensures DirectionInv(DirectionOf(Next(s, step), side))
  {
    var d, e := DirectionOf(s, side), DirectionOf(Next(s, step), side);
    assert DirectionInv(d);
    hide DirectionInv, Next, Unmoved, Asked, Finished;
    match step
    case Ask(at, query) =>
      AskEffect(s, at, query, side);
      if at == side { AskedInv(d, query); } else { UnmovedInv(d, e); }
    case Finish(at, id, value) =>
      FinishEffect(s, at, id, value, side);
      if at == Other(side) && id in d.handling { FinishedInv(d, id, value); } else { UnmovedInv(d, e); }
    case Deliver(at, m) =>
      if s.peers.At(at).reading && m in s.inbox.At(at) {
        DeliverInv(s, at, m, side);
      } else {
        OtherEffect(s, step, side);
        UnmovedInv(d, e);
      }
    case _ =>
      OtherEffect(s, step, side);
      UnmovedInv(d, e);
  }

  lemma DeliverInv(s: System, at: Side, m: Message, side: Side)
    requires DirectionInv(DirectionOf(s, side)) && s.peers.At(at).reading && m in s.inbox.At(at)
    ensures DirectionInv(DirectionOf(Next(s, Deliver(at, m)), side))
  {
    var d, e := DirectionOf(s, side), DirectionOf(Next(s, Deliver(at, m)), side);
    hide Next;
    if m.Request? {
      if at == Other(side) { assert m in d.requests && m.id in d.issued && m == RequestOf(d.issued, m.id); }
      hide DirectionInv;
      RequestEffect(s, at, m, side);
      if at == Other(side) {
        ServedInv(d, m.id, s.peers.At(at).handlers);
        UnmovedInv(Served(d, m.id, s.peers.At(at).handlers), e);
      } else {
        UnmovedInv(d, e);
      }
    } else {
      hide DirectionInv;
      ResponseEffect(s, at, m, side);
      if at == side { ClosedInv(d, m); } else { UnmovedInv(d, e); }
    }
  }

  lemma {:induction false} NextInv(s: System, step: Step)
    requires Inv(s)
    ensures Inv(Next(s, step))
  {
    NextDirectionInv(s, step, Left);
    NextDirectionInv(s, step, Right);
  }

  /** The invariant holds after every run of the two proxies. */
  lemma {:induction false} RunInv(steps: seq<Step>)
    ensures Inv(Run(steps))
  {
    if steps != [] {
      RunInv(steps[..|steps| - 1]);
      NextInv(Run(steps[..|steps| - 1]), steps[|steps| - 1]);
    }
  }
}
