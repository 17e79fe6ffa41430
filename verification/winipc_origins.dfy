/** Where the handlers and the queries of a run come from: the steps that registered and issued them. */
module WinIpcOrigins {
  import opened Outcomes
  import opened WinIpcProxy
  import opened WinIpcNetwork

  /** No type is asked for; or the empty one, and there is no value; or there is a value of exactly the type. */
  predicate Agrees(asked: Option<string>, v: Option<Variant>) {
    || asked == None
    || (asked == Some("") && v == None)
    || (asked.Some? && asked.value != "" && v.Some? && v.value.typeString == asked.value)
  }

  lemma SameTypeIffAgrees(asked: Option<string>, v: Option<Variant>)
    ensures HasSameType(asked, v) <==> Agrees(asked, v)
  {
  }

  /** The `r`th step registers a handler on `side`, and no step of `steps` after it takes it off again. */
  ghost predicate RegisteredBy(steps: seq<Step>, r: nat, side: Side, verb: string, argumentType: Option<string>) {
    && r < |steps| && steps[r] == Register(side, verb, argumentType)
    && verb !in Run(steps[..r]).peers.At(side).handlers
    && forall u :: r < u < |steps| ==> steps[u] != Unregister(side, Run(steps[..r]).peers.At(side).lastHandlerId)
  }

  /** A handler for the verb that takes the argument is registered on `side` after the steps. */
  ghost predicate CanHandle(steps: seq<Step>, side: Side, verb: string, argument: Option<Variant>) {
    exists r: nat, t :: RegisteredBy(steps, r, side, verb, t) && Agrees(t, argument)
  }

  /** How a single step changes the handlers of a side. */
  lemma NextHandlers(s: System, step: Step, side: Side)
    ensures var p, q := s.peers.At(side), Next(s, step).peers.At(side);
            q.handlers == match step
                          case Register(at, verb, t) =>
                            if at == side && verb !in p.handlers then p.handlers[verb := Handler(p.lastHandlerId, t)]
                            else p.handlers
                          case Unregister(at, tag) => if at == side then Unregistered(p, tag).handlers else p.handlers
                          case _ => p.handlers
  {
    hide Unregistered, Judge, HasSameType, QueryOutcome;
  }

  /** A handler that is there was registered by a step of the run and has not been taken off. */
  lemma {:induction false} HandlerWasRegistered(steps: seq<Step>, side: Side, verb: string) returns (r: nat)
    requires verb in Run(steps).peers.At(side).handlers
    ensures RegisteredBy(steps, r, side, verb, Run(steps).peers.At(side).handlers[verb].argumentType)
    ensures Run(steps).peers.At(side).handlers[verb].tag == Run(steps[..r]).peers.At(side).lastHandlerId
  {
    var n := |steps| - 1;
    var before, step := steps[..n], steps[n];
    NextHandlers(Run(before), step, side);
    assert Run(steps) == Next(Run(before), step);
    hide Run, Next;
    if verb !in Run(before).peers.At(side).handlers {
      r := n;
    } else {
      assert Run(steps).peers.At(side).handlers[verb] == Run(before).peers.At(side).handlers[verb];
      r := HandlerWasRegistered(before, side, verb);
      assert before[..r] == steps[..r];
      RegisteredLonger(steps, r, side, verb, Run(before).peers.At(side).handlers[verb].argumentType);
    }
  }

  lemma RegisteredLonger(steps: seq<Step>, r: nat, side: Side, verb: string, t: Option<string>)
    requires var n := |steps| - 1;
             n >= 0 && RegisteredBy(steps[..n], r, side, verb, t)
             && steps[n] != Unregister(side, Run(steps[..r]).peers.At(side).lastHandlerId)
    ensures RegisteredBy(steps, r, side, verb, t)
  {
    hide Run;
    assert steps[..|steps| - 1][..r] == steps[..r];
  }

  /** And one that was registered and has not been taken off is there. */
  lemma {:induction false} RegisteredStays(steps: seq<Step>, r: nat, side: Side, verb: string, t: Option<string>)
    requires RegisteredBy(steps, r, side, verb, t)
    ensures var p := Run(steps).peers.At(side);
            verb in p.handlers && p.handlers[verb] == Handler(Run(steps[..r]).peers.At(side).lastHandlerId, t)
  {
    var n := |steps| - 1;
    var before, step := steps[..n], steps[n];
    NextHandlers(Run(before), step, side);
    assert Run(steps) == Next(Run(before), step);
    hide Run, Next;
    assert before[..r] == steps[..r];
    if r < n {
      assert forall u :: r < u < n ==> before[u] == steps[u];
      RegisteredStays(before, r, side, verb, t);
    }
  }

  /** What becomes of a request depends on the steps: it is accepted exactly if one of them registered a handler
      for its verb that takes its argument, and none has taken it off. */
  lemma AcceptedIff(steps: seq<Step>, side: Side, verb: string, argument: Option<Variant>)
    ensures Judge(Run(steps).peers.At(side).handlers, verb, argument) == Accepted <==>
              CanHandle(steps, side, verb, argument)
  {
    var handlers := Run(steps).peers.At(side).handlers;
    if verb in handlers {
      SameTypeIffAgrees(handlers[verb].argumentType, argument);
    }
    hide HasSameType, Agrees, Run;
    if Judge(handlers, verb, argument) == Accepted {
      var r := HandlerWasRegistered(steps, side, verb);
    }
    if CanHandle(steps, side, verb, argument) {
      var r: nat, t :| RegisteredBy(steps, r, side, verb, t) && Agrees(t, argument);
      RegisteredStays(steps, r, side, verb, t);
    }
  }

  /** The `a`th step issues query `id` of `side`. */
  ghost predicate IssuedBy(steps: seq<Step>, a: nat, side: Side, id: nat, query: Query) {
    a < |steps| && steps[a] == Ask(side, query) && Run(steps[..a]).peers.At(side).lastRequestId == id
  }

  lemma NextIssuedMap(s: System, step: Step, side: Side)
    ensures Next(s, step).issued.At(side)
         == if step.Ask? && step.side == side
            then s.issued.At(side)[s.peers.At(side).lastRequestId := step.query]
            else s.issued.At(side)
  {
    hide Judge, QueryOutcome, HasSameType;
  }

  lemma {:induction false} QueryWasAsked(steps: seq<Step>, side: Side, id: nat) returns (a: nat)
    requires id in Run(steps).issued.At(side)
    ensures IssuedBy(steps, a, side, id, Run(steps).issued.At(side)[id])
  {
    var n := |steps| - 1;
    var before, step := steps[..n], steps[n];
    NextIssuedMap(Run(before), step, side);
    hide Next;
    if step.Ask? && step.side == side && Run(before).peers.At(side).lastRequestId == id {
      a := n;
    } else {
      a := QueryWasAsked(before, side, id);
      assert before[..a] == steps[..a];
    }
  }
}
