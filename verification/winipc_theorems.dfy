/** What the WinIpc protocol promises, over every run of the two proxies. */
module WinIpcTheorems {
  import opened Outcomes
  import opened PendingResponses
  import opened WinIpcProxy
  import opened WinIpcNetwork
  import opened WinIpcOrigins

  /** The `k`th step of the run hands `side`'s query `id` to the other end. */
  ghost predicate ReachesPeer(steps: seq<Step>, k: nat, side: Side, id: nat) {
    && k < |steps|
    && id in Run(steps[..k]).issued.At(side)
    && steps[k] == Deliver(Other(side), RequestOf(Run(steps[..k]).issued.At(side), id))
  }

  /** The `k`th step is the handler at the other end returning `value` for `side`'s query `id`. */
  ghost predicate HandlerReturns(steps: seq<Step>, k: nat, side: Side, id: nat, value: Option<Variant>) {
    && k < |steps|
    && steps[k] == Finish(Other(side), id, value)
    && id in Run(steps[..k]).peers.At(Other(side)).handling
  }

  lemma InvParts(s: System, side: Side)
    requires Inv(s)
    ensures DirectionInv(DirectionOf(s, side))
  {
  }

  /** Queries are never forgotten. */
  lemma NextIssued(s: System, step: Step, side: Side, id: nat)
    requires AskerInv(DirectionOf(s, side)) && id in s.issued.At(side)
    ensures id in Next(s, step).issued.At(side) && Next(s, step).issued.At(side)[id] == s.issued.At(side)[id]
  {
    var p := s.peers.At(side);
    assert id != p.lastRequestId;
    hide AskerInv, Judge;
    var m := if step.Deliver? then step.m else Request(0, "", None);
    assert Next(s, step).issued.At(side)
        == if step.Ask? && step.side == side then s.issued.At(side)[p.lastRequestId := step.query]
           else s.issued.At(side);
    hide Next;
  }

  lemma {:induction false} IssuedForever(steps: seq<Step>, k: nat, side: Side, id: nat)
    requires k <= |steps| && id in Run(steps[..k]).issued.At(side)
    ensures id in Run(steps).issued.At(side)
    ensures Run(steps).issued.At(side)[id] == Run(steps[..k]).issued.At(side)[id]
  {
    if k == |steps| {
      assert steps[..k] == steps;
    } else {
      var before := steps[..|steps| - 1];
      assert before[..k] == steps[..k];
      IssuedForever(before, k, side, id);
      RunInv(before);
      InvParts(Run(before), side);
      hide Next, Inv;
      NextIssued(Run(before), steps[|steps| - 1], side, id);
    }
  }

  ghost predicate NewRecord(d: Direction, id: nat, handlers: map<string, Handler>) {
    && id in d.served && d.served[id].handlersThen == handlers
    && (d.served[id].status == InProgress || d.served[id].status == Settled(false, None))
  }

  lemma BranchRecords(d: Direction, id: nat, handlers: map<string, Handler>)
    requires id in d.issued
    ensures NewRecord(Started(d, id, handlers), id, handlers)
    ensures NewRecord(Refused(d, id, handlers), id, handlers)
  {
  }

  lemma ServedRecord(d: Direction, id: nat, handlers: map<string, Handler>)
    requires id in d.issued
    ensures NewRecord(Served(d, id, handlers), id, handlers)
  {
    hide Judge, Started, Refused, NewRecord;
    BranchRecords(d.(requests := d.requests - multiset{RequestOf(d.issued, id)}), id, handlers);
  }

  /** How a single step changes the service of a query. */
  lemma NextServed(s: System, step: Step, side: Side, id: nat)
    requires UnderWayInv(DirectionOf(s, side)) && id in Next(s, step).served.At(side)
    requires id in s.served.At(side) ==> Next(s, step).served.At(side)[id] != s.served.At(side)[id]
    ensures id in s.served.At(side) ==>
              && step.Finish? && step == Finish(Other(side), id, step.value) && id in s.peers.At(Other(side)).handling
              && Next(s, step).served.At(side)[id] == s.served.At(side)[id].(status := Settled(true, step.value))
    ensures id !in s.served.At(side) ==>
              && id in s.issued.At(side) && step == Deliver(Other(side), RequestOf(s.issued.At(side), id))
              && NewRecord(DirectionOf(Next(s, step), side), id, s.peers.At(Other(side)).handlers)
  {
    var d, e := DirectionOf(s, side), DirectionOf(Next(s, step), side);
    assert id in e.served;
    hide Next, UnderWayInv;
    match step
    case Ask(at, query) => AskEffect(s, at, query, side);
    case Finish(at, x, value) => NextServedFinish(s, at, x, value, side); hide NewRecord;
    case Deliver(at, m) =>
      if !s.peers.At(at).reading || m !in s.inbox.At(at) {
        OtherEffect(s, step, side);
      } else if m.Response? {
        ResponseEffect(s, at, m, side);
      } else {
        NextServedRequest(s, at, m, side);
        hide NewRecord;
      }
    case _ => OtherEffect(s, step, side);
  }

  lemma NextServedFinish(s: System, at: Side, x: nat, value: Option<Variant>, side: Side)
    ensures var d, e := DirectionOf(s, side), DirectionOf(Next(s, Finish(at, x, value)), side);
            if at == Other(side) && x in d.handling && x in d.served
            then e.served == d.served[x := d.served[x].(status := Settled(true, value))]
            else e.served == d.served
  {
    var t := Next(s, Finish(at, x, value));
    assert t.served.At(side)
        == if at == Other(side) && x in s.peers.At(at).handling then Answers(s.served.At(side), x, value)
           else s.served.At(side);
    hide Next;
  }

  lemma NextServedRequest(s: System, at: Side, m: Message, side: Side)
    requires UnderWayInv(DirectionOf(s, side)) && s.peers.At(at).reading && m in s.inbox.At(at) && m.Request?
    ensures var d, e := DirectionOf(s, side), DirectionOf(Next(s, Deliver(at, m)), side);
            && (at == side ==> e.served == d.served)
            && (at != side ==>
                  && m.id in d.issued && m == RequestOf(d.issued, m.id) && m.id !in d.served
                  && NewRecord(e, m.id, s.peers.At(at).handlers)
                  && forall j :: j in e.served && j != m.id ==> j in d.served && e.served[j] == d.served[j])
  {
    var d, e := DirectionOf(s, side), DirectionOf(Next(s, Deliver(at, m)), side);
    hide Next;
    if at == Other(side) { assert m in d.requests; }
    hide UnderWayInv;
    RequestEffect(s, at, m, side);
    if at == Other(side) {
      ServedFrame(d, m.id, s.peers.At(at).handlers);
      ServedRecord(d, m.id, s.peers.At(at).handlers);
      hide Served;
    }
  }

  lemma RunUnderWay(steps: seq<Step>, side: Side)
    ensures UnderWayInv(DirectionOf(Run(steps), side))
  {
    RunInv(steps);
    InvParts(Run(steps), side);
    hide Run, Inv, AskerInv, UnderWayInv, ServiceInv, CompletionInv, NothingLost;
  }

  /** Every served query was handed to the other end at some step `k`, judged by the handlers registered
      there at that very moment; a successful answer is what the handler returned at a later step `j`. */
  lemma {:induction false} Provenance(steps: seq<Step>, side: Side, id: nat) returns (k: nat, j: nat)
    requires id in Run(steps).served.At(side)
    ensures ReachesPeer(steps, k, side, id)
    ensures Run(steps).served.At(side)[id].handlersThen == Run(steps[..k]).peers.At(Other(side)).handlers
    ensures match Run(steps).served.At(side)[id].status
            case InProgress => true
            case Settled(success, value) =>
              if success then k < j && HandlerReturns(steps, j, side, id, value) else value == None
  {
    hide Next, Inv;
    var before, step := steps[..|steps| - 1], steps[|steps| - 1];
    var s := Run(before);
    RunUnderWay(before, side);
    hide UnderWayInv;
    if id in s.served.At(side) {
      k, j := Provenance(before, side, id);
      assert before[..k] == steps[..k];
      if Next(s, step).served.At(side)[id] != s.served.At(side)[id] {
        NextServed(s, step, side, id);
        j := |steps| - 1;
      } else if j < |before| {
        assert before[..j] == steps[..j];
      }
    } else {
      NextServed(s, step, side, id);
      k, j := |steps| - 1, 0;
      assert Next(s, step) == Run(steps);
    }
  }

  lemma CompletionFacts(d: Direction, i: nat)
    requires CompletionInv(d) && ServiceInv(d) && i < |d.p.completed|
    ensures var c := d.p.completed[i];
            c.id in d.issued && c.id in d.served
            && match d.served[c.id].status
               case InProgress => false
               case Settled(success, value) =>
                 VerdictOn(d, c.id) == (if success then Accepted else Rejected)
                 && c.outcome == QueryOutcome(d.issued[c.id], success, value)
  {
    hide Judge, QueryOutcome, IsPending, IsCompleted;
    assert ProperCompletion(d, d.p.completed[i]);
  }

  /** The handler at work on `side`'s query `id` after these steps has the query's own verb and argument. */
  ghost predicate WorksOn(steps: seq<Step>, side: Side, id: nat, query: Query) {
    && id in Run(steps).peers.At(Other(side)).handling
    && Run(steps).peers.At(Other(side)).handling[id] == Activation(query.verb, query.argument)
  }

  lemma HandlerOfQuery(steps: seq<Step>, j: nat, side: Side, id: nat)
    requires j <= |steps| && id in Run(steps[..j]).peers.At(Other(side)).handling
    ensures id in Run(steps).issued.At(side) && WorksOn(steps[..j], side, id, Run(steps).issued.At(side)[id])
  {
    RunInv(steps[..j]);
    InvParts(Run(steps[..j]), side);
    assert ServiceInv(DirectionOf(Run(steps[..j]), side));
    hide Run, Inv, DirectionInv, VerdictOn, IsPending;
    IssuedForever(steps, j, side, id);
  }

  /** How the query of a completion was served. */
  lemma CompletionService(steps: seq<Step>, side: Side, i: nat) returns (k: nat, j: nat, value: Option<Variant>)
    requires i < |Run(steps).peers.At(side).completed|
    ensures var c := Run(steps).peers.At(side).completed[i];
            && ReachesPeer(steps, k, side, c.id) && c.id in Run(steps).issued.At(side)
            && var query := Run(steps).issued.At(side)[c.id];
            && Run(steps[..k]).issued.At(side)[c.id] == query
            && match Judge(Run(steps[..k]).peers.At(Other(side)).handlers, query.verb, query.argument)
               case Rejected => c.outcome == InvalidQuery
               case Accepted =>
                 && k < j && HandlerReturns(steps, j, side, c.id, value) && WorksOn(steps[..j], side, c.id, query)
                 && c.outcome == QueryOutcome(query, true, value)
  {
    RunInv(steps);
    InvParts(Run(steps), side);
    var d := DirectionOf(Run(steps), side);
    CompletionFacts(d, i);
    hide Run, Inv, DirectionInv, Judge, WorksOn;
    var c := d.p.completed[i];
    k, j := Provenance(steps, side, c.id);
    value := d.served[c.id].status.value;
    IssuedForever(steps, k, side, c.id);
    if d.served[c.id].status.success { HandlerOfQuery(steps, j, side, c.id); }
  }

  /** A query that ends was issued at step `a` and handed to the other end, as issued, at step `k`. If a handler
      for its verb that takes its argument was registered there then, it gets exactly the value that such a
      handler, working on this query's own verb and argument, returned at step `j`, provided that value is of
      the type asked for; if none was, it fails as having no handler. */
  lemma CompletionIsOwn(steps: seq<Step>, side: Side, i: nat)
    returns (a: nat, k: nat, j: nat, query: Query, value: Option<Variant>)
    requires i < |Run(steps).peers.At(side).completed|
    ensures var c := Run(steps).peers.At(side).completed[i];
            && a < k && IssuedBy(steps, a, side, c.id, query)
            && k < |steps| && steps[k] == Deliver(Other(side), Request(c.id, query.verb, query.argument))
            && if CanHandle(steps[..k], Other(side), query.verb, query.argument) then
                 && k < j && HandlerReturns(steps, j, side, c.id, value) && WorksOn(steps[..j], side, c.id, query)
                 && c.outcome == if Agrees(query.responseType, value) then Reply(value) else InvalidResponse
               else
                 c.outcome == InvalidQuery
  {
    k, j, value := CompletionService(steps, side, i);
    hide Run, Judge, WorksOn, HandlerReturns, HasSameType, Agrees, CanHandle;
    var id := Run(steps).peers.At(side).completed[i].id;
    query := Run(steps).issued.At(side)[id];
    a := QueryWasAsked(steps[..k], side, id);
    assert steps[..k][..a] == steps[..a];
    AcceptedIff(steps[..k], Other(side), query.verb, query.argument);
    SameTypeIffAgrees(query.responseType, value);
  }

  /** No query ends twice, and none ends while it is still pending. */
  lemma CompletesAtMostOnce(steps: seq<Step>, side: Side, i: nat, j: nat)
    requires i < j < |Run(steps).peers.At(side).completed|
    ensures Run(steps).peers.At(side).completed[i].id != Run(steps).peers.At(side).completed[j].id
    ensures !IsPending(Run(steps).peers.At(side), Run(steps).peers.At(side).completed[i].id)
  {
    RunInv(steps);
    assert CompletionInv(DirectionOf(Run(steps), side));
    assert ProperCompletion(DirectionOf(Run(steps), side), Run(steps).peers.At(side).completed[i]);
  }

  /** In any run, every response under way finds its query in `pending_responses`. */
  lemma NoStrayResponse(steps: seq<Step>, side: Side, m: Message)
    requires m in Run(steps).inbox.At(side) && m.Response?
    ensures FindPending(Run(steps).peers.At(side).pending, m.id) < |Run(steps).peers.At(side).pending|
    ensures Run(steps).inbox.At(side)[m] == 1
  {
    RunUnderWay(steps, side);
    hide Run;
    assert m in DirectionOf(Run(steps), side).responses;
  }

  /** Where a pending query can be. */
  ghost predicate InRequest(s: System, side: Side, id: nat) {
    id in s.issued.At(side) && s.inbox.At(Other(side))[RequestOf(s.issued.At(side), id)] == 1
  }

  ghost predicate InHandler(s: System, side: Side, id: nat) {
    id in s.peers.At(Other(side)).handling
  }

  ghost predicate InResponse(s: System, side: Side, id: nat) {
    exists m :: m in s.inbox.At(side) && m.Response? && m.id == id && s.inbox.At(side)[m] == 1
  }

  /** While the pipe is healthy the pending ids are distinct, below `last_request_id`, and each is in exactly
      one of the three places; what is in them belongs to pending queries only. */
  lemma {:induction false} ExactlyOnePlace(steps: seq<Step>, side: Side, id: nat)
    requires Healthy(Run(steps))
    ensures var s := Run(steps);
            && (IsPending(s.peers.At(side), id) <==>
                  InRequest(s, side, id) || InHandler(s, side, id) || InResponse(s, side, id))
            && !(InRequest(s, side, id) && InHandler(s, side, id))
            && !(InRequest(s, side, id) && InResponse(s, side, id))
            && !(InHandler(s, side, id) && InResponse(s, side, id))
            && (IsPending(s.peers.At(side), id) ==> 1 <= id < s.peers.At(side).lastRequestId)
  {
    RunInv(steps);
    var s, d := Run(steps), DirectionOf(Run(steps), side);
    assert AskerInv(d) && UnderWayInv(d) && ServiceInv(d) && NothingLost(d);
    hide Run, Inv, Judge, VerdictOn;
    if IsPending(d.p, id) && id in d.served && d.served[id].status.Settled? {
      var m := Response(id, d.served[id].status.success, d.served[id].status.value);
      assert m in d.responses && d.responses[m] == 1;
    }
  }

  ghost predicate EndedOnce(p: Peer, id: nat) {
    exists i :: 0 <= i < |p.completed| && p.completed[i].id == id
      && forall j :: 0 <= j < |p.completed| && j != i ==> p.completed[j].id != id
  }

  lemma FirstIsPending(p: Peer)
    ensures p.pending != [] ==> IsPending(p, p.pending[0].id)
  {
  }

  lemma NothingPending(d: Direction)
    requires AskerInv(d) && NothingLost(d) && d.handling == map[]
    requires forall m :: m in d.requests ==> m.Response?
    requires forall m :: m in d.responses ==> m.Request?
    ensures forall id :: !IsPending(d.p, id)
  {
    assert forall id :: IsPending(d.p, id) ==> id in d.issued;
    hide AskerInv;
  }

  lemma DrainedDirection(d: Direction)
    requires AskerInv(d) && CompletionInv(d) && NothingLost(d) && d.handling == map[]
    requires forall m :: m in d.requests ==> m.Response?
    requires forall m :: m in d.responses ==> m.Request?
    ensures d.p.pending == []
    ensures forall id :: 1 <= id < d.p.lastRequestId ==> EndedOnce(d.p, id)
  {
    FirstIsPending(d.p);
    NothingPending(d);
    hide NothingLost, CompletionInv, IsPending, EndedOnce;
    forall id | 1 <= id < d.p.lastRequestId ensures EndedOnce(d.p, id) {
      EndedIfNotPending(d, id);
    }
  }

  lemma EndedIfNotPending(d: Direction, id: nat)
    requires CompletionInv(d) && id in d.issued && !IsPending(d.p, id)
    ensures EndedOnce(d.p, id)
  {
    assert IsCompleted(d.p, id);
    assert forall i, j :: 0 <= i < j < |d.p.completed| ==> d.p.completed[i].id != d.p.completed[j].id;
    hide CompletionInv, IsPending;
    DistinctEndOnce(d.p, id);
  }

  lemma DistinctEndOnce(p: Peer, id: nat)
    requires IsCompleted(p, id)
    requires forall i, j :: 0 <= i < j < |p.completed| ==> p.completed[i].id != p.completed[j].id
    ensures EndedOnce(p, id)
  {
    var i :| 0 <= i < |p.completed| && p.completed[i].id == id;
    assert forall j :: 0 <= j < |p.completed| && j != i ==> p.completed[j].id != id;
  }

  /** Once a healthy run has drained, every query issued has ended, and ended once. */
  lemma {:induction false} DrainedMeansAnswered(steps: seq<Step>, side: Side)
    requires Healthy(Run(steps))
    requires forall m :: m in Run(steps).inbox.At(Other(side)) ==> m.Response?
    requires forall m :: m in Run(steps).inbox.At(side) ==> m.Request?
    requires Run(steps).peers.At(Other(side)).handling == map[]
    ensures Run(steps).peers.At(side).pending == []
    ensures forall id :: 1 <= id < Run(steps).peers.At(side).lastRequestId ==> EndedOnce(Run(steps).peers.At(side), id)
  {
    RunInv(steps);
    InvParts(Run(steps), side);
    hide Run, Inv, AskerInv, CompletionInv, NothingLost, UnderWayInv, ServiceInv, EndedOnce;
    DrainedDirection(DirectionOf(Run(steps), side));
  }

  // ---- No query is stuck.

  lemma RunAppend(steps: seq<Step>, step: Step)
    ensures Run(steps + [step]) == Next(Run(steps), step)
  {
    assert (steps + [step])[..|steps|] == steps;
  }

  /** The next step of a query's own: its request, its handler or its response. */
  ghost function OwnStep(d: Direction, side: Side, id: nat, value: Option<Variant>): Step
    requires id in d.issued
  {
    if id !in d.served then Deliver(Other(side), RequestOf(d.issued, id))
    else
      match d.served[id].status
      case InProgress => Finish(Other(side), id, value)
      case Settled(success, v) => Deliver(side, Response(id, success, v))
  }

  ghost function Remaining(d: Direction, id: nat): nat {
    if id !in d.served then 2 else if d.served[id].status.InProgress? then 1 else 0
  }

  /** `side`'s query `id` is pending over a healthy pipe. */
  ghost predicate Completable(s: System, side: Side, id: nat) {
    Healthy(s) && IsPending(s.peers.At(side), id) && id in s.issued.At(side)
  }

  lemma DeliveredRequest(s: System, side: Side, id: nat)
    requires NothingLost(DirectionOf(s, side)) && Completable(s, side, id) && id !in s.served.At(side)
    ensures Completable(Next(s, Deliver(Other(side), RequestOf(s.issued.At(side), id))), side, id)
    ensures id in Next(s, Deliver(Other(side), RequestOf(s.issued.At(side), id))).served.At(side)
  {
    var d, m := DirectionOf(s, side), RequestOf(s.issued.At(side), id);
    assert m in d.requests;
    hide NothingLost;
    var t := Next(s, Deliver(Other(side), m));
    assert Healthy(t) && t.peers.At(side) == s.peers.At(side);
    hide Judge;
    assert t.issued == s.issued;
  }

  lemma FinishedRequest(s: System, side: Side, id: nat, value: Option<Variant>)
    requires NothingLost(DirectionOf(s, side)) && Completable(s, side, id)
    requires id in s.served.At(side) && s.served.At(side)[id].status == InProgress
    ensures Completable(Next(s, Finish(Other(side), id, value)), side, id)
    ensures id in Next(s, Finish(Other(side), id, value)).served.At(side)
    ensures Next(s, Finish(Other(side), id, value)).served.At(side)[id].status.Settled?
  {
    assert id in DirectionOf(s, side).handling;
    hide NothingLost, Judge;
    var t := Next(s, Finish(Other(side), id, value));
    assert t.peers.At(side) == s.peers.At(side) && t.issued == s.issued;
  }

  lemma DeliveredResponse(s: System, side: Side, id: nat, m: Message)
    requires NothingLost(DirectionOf(s, side)) && Completable(s, side, id)
    requires id in s.served.At(side) && m.Response? && m.id == id
    requires s.served.At(side)[id].status == Settled(m.success, m.value)
    ensures IsCompleted(Next(s, Deliver(side, m)).peers.At(side), id)
  {
    var p := s.peers.At(side);
    assert m in DirectionOf(s, side).responses;
    hide NothingLost, Judge, QueryOutcome;
    var i := FindPending(p.pending, id);
    assert i < |p.pending|;
    hide FindPending;
    var q := Answered(p, id, m.success, m.value);
    assert q.completed[|p.completed|].id == id;
    assert Next(s, Deliver(side, m)).peers.At(side) == q;
  }

  /** From any healthy run, every pending query can be brought to its end by at most three further steps of
      its own, whatever other queries are doing. */
  lemma {:induction false} CanComplete(steps: seq<Step>, side: Side, id: nat, value: Option<Variant>)
    returns (more: seq<Step>)
    requires Completable(Run(steps), side, id)
    ensures |more| <= 3 && IsCompleted(Run(steps + more).peers.At(side), id)
  {
    hide Run, Completable, IsCompleted;
    more := CompleteIn(steps, side, id, value);
  }

  lemma RunLosesNothing(steps: seq<Step>, side: Side)
    requires Healthy(Run(steps))
    ensures NothingLost(DirectionOf(Run(steps), side))
  {
    RunInv(steps);
    InvParts(Run(steps), side);
    hide Run, Inv, AskerInv, UnderWayInv, ServiceInv, CompletionInv, NothingLost;
  }

  lemma OwnStepAdvances(steps: seq<Step>, side: Side, id: nat, value: Option<Variant>) returns (step: Step)
    requires Completable(Run(steps), side, id)
    ensures var d, t := DirectionOf(Run(steps), side), Run(steps + [step]);
            if Remaining(d, id) == 0 then IsCompleted(t.peers.At(side), id)
            else Completable(t, side, id) && Remaining(DirectionOf(t, side), id) < Remaining(d, id)
  {
    var s, d := Run(steps), DirectionOf(Run(steps), side);
    assert Healthy(s) && id in d.issued;
    RunLosesNothing(steps, side);
    hide Next, NothingLost, Completable, IsCompleted, Run;
    step := OwnStep(d, side, id, value);
    RunAppend(steps, step);
    if Remaining(d, id) == 0 {
      DeliveredResponse(s, side, id, step.m);
    } else if Remaining(d, id) == 2 {
      DeliveredRequest(s, side, id);
    } else {
      FinishedRequest(s, side, id, value);
    }
  }

  lemma {:induction false} CompleteIn(steps: seq<Step>, side: Side, id: nat, value: Option<Variant>)
    returns (more: seq<Step>)
    requires Completable(Run(steps), side, id)
    ensures |more| <= 1 + Remaining(DirectionOf(Run(steps), side), id)
    ensures IsCompleted(Run(steps + more).peers.At(side), id)
    decreases Remaining(DirectionOf(Run(steps), side), id)
  {
    hide Next, Completable, IsCompleted, Run, Remaining, DirectionOf;
    var step := OwnStepAdvances(steps, side, id, value);
    if Remaining(DirectionOf(Run(steps), side), id) == 0 {
      more := [step];
    } else {
      var rest := CompleteIn(steps + [step], side, id, value);
      more := [step] + rest;
      assert steps + more == steps + [step] + rest;
    }
  }

  /** A query made is pending under the next id and, while the pipe is healthy, its request is under way. */
  lemma AskIssues(steps: seq<Step>, side: Side, query: Query)
    ensures var s, t := Run(steps), Run(steps + [Ask(side, query)]);
            var id := s.peers.At(side).lastRequestId;
            && id in t.issued.At(side) && t.issued.At(side)[id] == query && IsPending(t.peers.At(side), id)
            && t.peers.At(side).lastRequestId == id + 1
            && (Healthy(s) ==> Request(id, query.verb, query.argument) in t.inbox.At(Other(side)))
  {
    RunAppend(steps, Ask(side, query));
    hide Run;
    SentPending(Run(steps).peers.At(side), query, Run(steps).peers.At(side).lastRequestId);
    hide IsPending;
  }

  /** What a stopped proxy does: it reads nothing, so no query of its own ends and none of the other's is taken. */
  ghost predicate StoppedAs(s: System, t: System, side: Side) {
    && !t.peers.At(side).reading && t.peers.At(side).closedSignals == 1
    && t.peers.At(side).completed == s.peers.At(side).completed
    && t.served.At(Other(side)).Keys == s.served.At(Other(side)).Keys
  }

  lemma NextStopped(s: System, step: Step, side: Side)
    requires !s.peers.At(side).reading && s.peers.At(side).closedSignals == 1
    ensures StoppedAs(s, Next(s, step), side)
  {
    if step.Finish? {
      AnswersKeys(s.served.At(Other(step.side)), step.id, step.value);
    }
    hide Judge, QueryOutcome, HasSameType, FindPending, Unregistered, Answers;
  }

  lemma AnswersKeys(served: map<nat, Service>, id: nat, value: Option<Variant>)
    ensures Answers(served, id, value).Keys == served.Keys
  {
  }

  lemma {:induction false} StoppedForGood(steps: seq<Step>, side: Side, later: seq<Step>)
    ensures StoppedAs(Run(steps), Run(steps + [Stop(side)] + later), side)
  {
    var stopped := steps + [Stop(side)];
    if later == [] {
      RunAppend(steps, Stop(side));
      assert stopped + later == stopped;
      hide Run;
    } else {
      var n := |later| - 1;
      StoppedForGood(steps, side, later[..n]);
      RunAppend(stopped + later[..n], later[n]);
      assert stopped + later == stopped + later[..n] + [later[n]];
      hide Run;
      NextStopped(Run(stopped + later[..n]), later[n], side);
      hide Next;
    }
  }
}
