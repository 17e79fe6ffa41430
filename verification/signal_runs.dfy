/** Every interleaving of changing a listener list, raising its signal and calling the listeners. */
module SignalRuns {
  import opened SignalListeners

  /** A run of the native handler: the callbacks it copied, how many it has called, whether it has let go of
      the copy. */
  datatype Emission = Emission(callbacks: seq<Callback>, next: nat, done: bool)

  datatype Call = Call(emission: nat, cb: Callback)

  /** `queued` counts handler runs that wait for the interpreter lock. `calls` is history. */
  datatype State = State(core: Core, queued: nat, emissions: seq<Emission>, calls: seq<Call>)

  function Start(hasHandle: bool): State {
    State(Core(hasHandle, true, [], 0, multiset{}), 0, [], [])
  }

  datatype Step =
    | On(cb: Callback)
    | Off(cb: Callback)
    | Raise
    | Begin
    | CallNext(e: nat)
    | End(e: nat)
    | Dealloc

  /** One step; a step that cannot happen, or that reports an error, leaves the state as it is. A callback's
      own doings are the steps between a `CallNext` and the next one of its emission. */
  function Next(s: State, step: Step): State {
    match step
    case On(cb) => if s.core.alive then s.(core := Added(s.core, cb)) else s
    case Off(cb) => if s.core.alive && cb in s.core.listeners then s.(core := Removed(s.core, cb)) else s
    case Raise => s.(queued := s.queued + s.core.connections)
    case Begin => Begun(s)
    case CallNext(e) =>
      if e >= |s.emissions| || s.emissions[e].next >= |s.emissions[e].callbacks| then s
      else
        var em := s.emissions[e];
        s.(calls := s.calls + [Call(e, em.callbacks[em.next])], emissions := s.emissions[e := em.(next := em.next + 1)])
    case End(e) =>
      if e >= |s.emissions| || s.emissions[e].next < |s.emissions[e].callbacks| || s.emissions[e].done then s
      else
        s.(core := Released(s.core, s.emissions[e].callbacks),
           emissions := s.emissions[e := s.emissions[e].(done := true)])
    case Dealloc => if s.core.alive then s.(core := Deallocated(s.core)) else s
  }

  /** The handler has the lock: it goes on only if the object still belongs to the handle. */
  function Begun(s: State): State {
    if s.queued == 0 then s
    else if !s.core.alive then s.(queued := s.queued - 1)
    else
      s.(queued := s.queued - 1, core := Held(s.core),
         emissions := s.emissions + [Emission(s.core.listeners, 0, false)])
  }

  function Run(hasHandle: bool, steps: seq<Step>): State {
    if steps == [] then Start(hasHandle) else Next(Run(hasHandle, steps[..|steps| - 1]), steps[|steps| - 1])
  }

  // ---- The invariant.

  function HeldBy(es: seq<Emission>): multiset<Callback> {
    if es == [] then multiset{} else HeldBy(es[..|es| - 1]) + Own(es[|es| - 1])
  }

  function Own(em: Emission): multiset<Callback> {
    if em.done then multiset{} else Bag(em.callbacks)
  }

  /** The callbacks that emission `e` called, in order. */
  function CallsOf(calls: seq<Call>, e: nat): seq<Callback> {
    if calls == [] then []
    else CallsOf(calls[..|calls| - 1], e) + if calls[|calls| - 1].emission == e then [calls[|calls| - 1].cb] else []
  }

  predicate EmissionInv(s: State, e: nat)
    requires e < |s.emissions|
  {
    var em := s.emissions[e];
    && em.next <= |em.callbacks|
    && (em.done ==> em.next == |em.callbacks|)
    && CallsOf(s.calls, e) == em.callbacks[..em.next]
  }

  predicate CallsInv(s: State) {
    && (forall e: nat :: e < |s.emissions| ==> EmissionInv(s, e))
    && (forall i :: 0 <= i < |s.calls| ==> s.calls[i].emission < |s.emissions|)
  }

  ghost predicate RefsInv(s: State) {
    Balanced(s.core, HeldBy(s.emissions))
  }

  lemma HeldMore(es: seq<Emission>, em: Emission)
    ensures HeldBy(es + [em]) == HeldBy(es) + Own(em)
  {
    assert (es + [em])[..|es|] == es;
  }

  /** Only being done matters to what an emission holds. */
  lemma {:induction false} HeldUpdate(es: seq<Emission>, e: nat, em: Emission)
    requires e < |es| && !es[e].done && em.callbacks == es[e].callbacks
    ensures HeldBy(es[e := em]) + (if em.done then Bag(em.callbacks) else multiset{}) == HeldBy(es)
  {
    hide Bag;
    var n := |es| - 1;
    if e < n {
      HeldUpdate(es[..n], e, em);
      assert es[e := em][..n] == es[..n][e := em];
      Swap(HeldBy(es[..n][e := em]), Own(es[n]), if em.done then Bag(em.callbacks) else multiset{});
    } else {
      assert es[e := em][..n] == es[..n];
    }
  }

  lemma {:induction false} HeldIncludes(es: seq<Emission>, e: nat, cb: Callback)
    requires e < |es| && !es[e].done && cb in es[e].callbacks
    ensures cb in HeldBy(es)
  {
    if e < |es| - 1 { HeldIncludes(es[..|es| - 1], e, cb); }
  }

  lemma {:induction false} HeldNothing(es: seq<Emission>)
    requires forall e :: 0 <= e < |es| ==> es[e].done
    ensures HeldBy(es) == multiset{}
  {
    if es != [] { HeldNothing(es[..|es| - 1]); }
  }

  lemma CallsOfMore(calls: seq<Call>, call: Call, e: nat)
    ensures CallsOf(calls + [call], e) == CallsOf(calls, e) + if call.emission == e then [call.cb] else []
  {
    assert (calls + [call])[..|calls|] == calls;
  }

  lemma {:induction false} NoCalls(calls: seq<Call>, e: nat)
    requires forall i :: 0 <= i < |calls| ==> calls[i].emission != e
    ensures CallsOf(calls, e) == []
  {
    if calls != [] { NoCalls(calls[..|calls| - 1], e); }
  }

  lemma NextCallsInv(s: State, step: Step)
    requires CallsInv(s)
    ensures CallsInv(Next(s, step))
  {
    var t := Next(s, step);
    hide Added, Removed, Deallocated, EmissionInv, CallsOf, Held, Released;
    forall e: nat | e < |t.emissions|
      ensures EmissionInv(t, e)
    {
      if e < |s.emissions| {
        NextEmissionInv(s, step, e);
      } else {
        NoCalls(s.calls, e);
        NewEmissionInv(t, e);
      }
    }
  }

  lemma NewEmissionInv(t: State, e: nat)
    requires e < |t.emissions| && t.emissions[e].next == 0 && !t.emissions[e].done && CallsOf(t.calls, e) == []
    ensures EmissionInv(t, e)
  {
    hide CallsOf;
  }

  lemma NextEmissionInv(s: State, step: Step, e: nat)
    requires e < |s.emissions| && EmissionInv(s, e)
    ensures e < |Next(s, step).emissions| && EmissionInv(Next(s, step), e)
  {
    var t := Next(s, step);
    hide CallsOf, Added, Removed, Deallocated, Held, Released;
    if step.CallNext? && t != s { CallsOfMore(s.calls, t.calls[|s.calls|], e); }
  }

  lemma NextRefsInv(s: State, step: Step)
    requires RefsInv(s) && CallsInv(s)
    ensures RefsInv(Next(s, step))
  {
    var others := HeldBy(s.emissions);
    hide CallsInv, Balanced, Bag, HeldBy, Added, Removed, Deallocated, Held;
    match step
    case On(cb) =>
      if s.core.alive { AddedBalanced(s.core, cb, others); }
    case Off(cb) =>
      if cb in s.core.listeners { RemovedBalanced(s.core, cb, others); }
    case Begin =>
      SnapshotBalanced(s.core, others);
      HeldMore(s.emissions, Emission(s.core.listeners, 0, false));
    case CallNext(e) =>
      CallRefsInv(s, e);
    case End(e) =>
      EndRefsInv(s, e);
    case Dealloc =>
      DeallocatedBalanced(s.core, others);
    case Raise =>
  }

  lemma CallRefsInv(s: State, e: nat)
    requires RefsInv(s) && CallsInv(s)
    ensures RefsInv(Next(s, CallNext(e)))
  {
    hide Balanced, Bag, HeldBy;
    if e < |s.emissions| && s.emissions[e].next < |s.emissions[e].callbacks| {
      OpenEmission(s, e);
      hide CallsInv;
      CalledHolds(s.emissions, e);
    } else {
      hide CallsInv;
    }
  }

  /** Calling does not change what the emissions hold. */
  lemma CalledHolds(es: seq<Emission>, e: nat)
    requires e < |es| && !es[e].done
    ensures HeldBy(es[e := es[e].(next := es[e].next + 1)]) == HeldBy(es)
  {
    hide HeldBy, Bag;
    HeldUpdate(es, e, es[e].(next := es[e].next + 1));
  }

  lemma EndRefsInv(s: State, e: nat)
    requires RefsInv(s)
    ensures RefsInv(Next(s, End(e)))
  {
    if Next(s, End(e)) != s {
      var em := s.emissions[e].(done := true);
      hide Balanced, Bag, HeldBy;
      HeldUpdate(s.emissions, e, em);
      ReleasedBalanced(s.core, HeldBy(s.emissions[e := em]), em.callbacks);
    }
  }

  lemma OpenEmission(s: State, e: nat)
    requires CallsInv(s) && e < |s.emissions| && s.emissions[e].next < |s.emissions[e].callbacks|
    ensures !s.emissions[e].done
  {
    assert EmissionInv(s, e);
  }

  lemma SameHandle(s: State, step: Step)
    ensures Next(s, step).core.hasHandle == s.core.hasHandle
  {
  }

  lemma {:induction false} RunInv(hasHandle: bool, steps: seq<Step>)
    ensures RefsInv(Run(hasHandle, steps)) && CallsInv(Run(hasHandle, steps))
    ensures Run(hasHandle, steps).core.hasHandle == hasHandle
  {
    if steps != [] {
      var before := Run(hasHandle, steps[..|steps| - 1]);
      RunInv(hasHandle, steps[..|steps| - 1]);
      hide RefsInv, CallsInv, Next;
      SameHandle(before, steps[|steps| - 1]);
      NextRefsInv(before, steps[|steps| - 1]);
      NextCallsInv(before, steps[|steps| - 1]);
    }
  }

  // ---- What holds in every run.

  /** The native signal runs the handler once if there are listeners, and not at all otherwise. */
  lemma ConnectedIffListening(hasHandle: bool, steps: seq<Step>)
    ensures var s := Run(hasHandle, steps);
            Next(s, Raise).queued == s.queued + if hasHandle && s.core.listeners != [] then 1 else 0
  {
    RunInv(hasHandle, steps);
  }

  lemma CallbacksFixed(s: State, step: Step, e: nat)
    requires e < |s.emissions|
    ensures e < |Next(s, step).emissions| && Next(s, step).emissions[e].callbacks == s.emissions[e].callbacks
  {
  }

  /** What an emission is to call is fixed when it begins, as the listeners there are then. */
  lemma {:induction false} SnapshotAtBegin(hasHandle: bool, steps: seq<Step>, later: seq<Step>)
    ensures var s := Run(hasHandle, steps);
            var t := Run(hasHandle, steps + [Begin] + later);
            s.queued > 0 && s.core.alive ==>
              |s.emissions| < |t.emissions| && t.emissions[|s.emissions|].callbacks == s.core.listeners
  {
    hide Run, Next;
    var s, begun := Run(hasHandle, steps), steps + [Begin];
    if later == [] {
      RunMore(hasHandle, steps, Begin);
      if s.queued > 0 && s.core.alive { BeginSnapshot(s); }
      assert begun + later == begun;
    } else {
      var n := |later| - 1;
      SnapshotAtBegin(hasHandle, steps, later[..n]);
      RunMore(hasHandle, begun + later[..n], later[n]);
      if s.queued > 0 && s.core.alive {
        CallbacksFixed(Run(hasHandle, begun + later[..n]), later[n], |s.emissions|);
      }
      assert begun + later == begun + later[..n] + [later[n]];
    }
  }

  lemma BeginSnapshot(s: State)
    requires s.queued > 0 && s.core.alive
    ensures Next(s, Begin).emissions == s.emissions + [Emission(s.core.listeners, 0, false)]
  {
  }

  lemma RunMore(hasHandle: bool, steps: seq<Step>, step: Step)
    ensures Run(hasHandle, steps + [step]) == Next(Run(hasHandle, steps), step)
  {
    assert (steps + [step])[..|steps|] == steps;
  }

  /** An emission calls its callbacks in their order, each once per occurrence, and has called all of them
      when it is done; whatever happens to the list and to the object in the meantime. */
  lemma {:induction false} EmissionCalls(hasHandle: bool, steps: seq<Step>, e: nat)
    requires e < |Run(hasHandle, steps).emissions|
    ensures var s := Run(hasHandle, steps);
            && CallsOf(s.calls, e) <= s.emissions[e].callbacks
            && (s.emissions[e].done ==> CallsOf(s.calls, e) == s.emissions[e].callbacks)
  {
    RunInv(hasHandle, steps);
    assert EmissionInv(Run(hasHandle, steps), e);
  }

  /** A callback that an emission has yet to call is still referenced, even if it has been taken off the list
      or the object is gone. */
  lemma HeldUntilCalled(hasHandle: bool, steps: seq<Step>, e: nat, k: nat)
    requires var s := Run(hasHandle, steps);
             e < |s.emissions| && s.emissions[e].next <= k < |s.emissions[e].callbacks|
    ensures Run(hasHandle, steps).emissions[e].callbacks[k] in Run(hasHandle, steps).core.refs
  {
    var s := Run(hasHandle, steps);
    RunInv(hasHandle, steps);
    OpenEmission(s, e);
    HeldIncludes(s.emissions, e, s.emissions[e].callbacks[k]);
  }

  /** Between emissions the references are those of the listeners; once the object is gone there are none. */
  lemma {:induction false} ReferencesBalance(hasHandle: bool, steps: seq<Step>)
    requires forall e :: 0 <= e < |Run(hasHandle, steps).emissions| ==> Run(hasHandle, steps).emissions[e].done
    ensures var s := Run(hasHandle, steps);
            && s.core.refs == Bag(s.core.listeners)
            && (!s.core.alive ==> s.core.refs == multiset{} && s.core.connections == 0)
  {
    RunInv(hasHandle, steps);
    HeldNothing(Run(hasHandle, steps).emissions);
  }

  /** No reference is dropped that is not there. */
  lemma {:induction false} NeverOverReleased(hasHandle: bool, steps: seq<Step>, step: Step)
    ensures var s, t := Run(hasHandle, steps), Next(Run(hasHandle, steps), step);
            && (step.End? && t != s ==> Bag(s.emissions[step.e].callbacks) <= s.core.refs)
            && (step.Dealloc? ==> Bag(s.core.listeners) <= s.core.refs)
            && (step.Off? && t != s ==> step.cb in s.core.refs)
  {
    var s := Run(hasHandle, steps);
    RunInv(hasHandle, steps);
    if step.End? && Next(s, step) != s {
      HeldUpdate(s.emissions, step.e, s.emissions[step.e].(done := true));
    }
  }

  /** Which callbacks listen: those put on, in order, without the first occurrence of each taken off; none once
      the object is gone. */
  lemma NextListeners(s: State, step: Step)
    ensures var before, after := s.core.listeners, Next(s, step).core.listeners;
            match step
            case On(cb) => after == if s.core.alive then before + [cb] else before
            case Off(cb) =>
              if s.core.alive && cb in before then
                exists i :: 0 <= i < |before| && before[i] == cb && cb !in before[..i]
                  && after == before[..i] + before[i + 1..]
              else after == before
            case Dealloc => s.core.alive ==> after == []
            case _ => after == before
  {
    hide Bag;
    if step.Off? && s.core.alive && step.cb in s.core.listeners {
      var i := FirstIndex(s.core.listeners, step.cb);
      assert Next(s, step).core.listeners == s.core.listeners[..i] + s.core.listeners[i + 1..];
    }
  }

  lemma NextEmission(s: State, e: nat)
    requires e < |s.emissions| && EmissionInv(s, e)
    ensures var em := s.emissions[e];
            if em.next < |em.callbacks| then
              var t := Next(s, CallNext(e));
              t.emissions == s.emissions[e := em.(next := em.next + 1)] && t.core == s.core
            else
              var t := Next(s, End(e));
              t.emissions == s.emissions[e := em.(done := true)]
              && t.core == if em.done then s.core else Released(s.core, em.callbacks)
  {
    hide Released, CallsOf;
    assert s.emissions[e].done ==> s.emissions == s.emissions[e := s.emissions[e].(done := true)];
  }

  lemma EmissionOf(hasHandle: bool, steps: seq<Step>, e: nat)
    requires e < |Run(hasHandle, steps).emissions|
    ensures EmissionInv(Run(hasHandle, steps), e)
    ensures var em := Run(hasHandle, steps).emissions[e];
            em.next <= |em.callbacks| && (em.done ==> em.next == |em.callbacks|)
  {
    RunInv(hasHandle, steps);
    hide Run;
    assert EmissionInv(Run(hasHandle, steps), e);
  }

  /** An emission under way can be finished by steps of its own; it has then made all its calls
      (`EmissionCalls`) and given back the references it held. */
  lemma {:induction false} FinishEmission(hasHandle: bool, steps: seq<Step>, e: nat) returns (more: seq<Step>)
    requires e < |Run(hasHandle, steps).emissions|
    ensures forall step <- more :: step == CallNext(e) || step == End(e)
    ensures var s, t := Run(hasHandle, steps), Run(hasHandle, steps + more);
            && e < |t.emissions| && t.emissions[e].done
            && t.core == if s.emissions[e].done then s.core else Released(s.core, s.emissions[e].callbacks)
    decreases |Run(hasHandle, steps).emissions[e].callbacks| - Run(hasHandle, steps).emissions[e].next
  {
    hide Run, Next, Released;
    var s := Run(hasHandle, steps);
    EmissionOf(hasHandle, steps, e);
    hide EmissionInv;
    NextEmission(s, e);
    if s.emissions[e].next < |s.emissions[e].callbacks| {
      RunMore(hasHandle, steps, CallNext(e));
      var rest := FinishEmission(hasHandle, steps + [CallNext(e)], e);
      more := [CallNext(e)] + rest;
      assert steps + more == steps + [CallNext(e)] + rest;
    } else {
      RunMore(hasHandle, steps, End(e));
      more := [End(e)];
    }
  }
}
