/** What a promise guarantees its callbacks, over every interleaving. */
module PromiseTheorems {
  import opened Promises
  import opened PromiseRuns
  import opened PromiseInvariant
  import opened PromiseLog
  import opened PromiseOrigins

  ghost predicate InvokedAt(s: State, i: nat, r: nat) {
    i < |s.invoked| && s.invoked[i].r == r
  }

  /** No callback is called twice, and each call is of a callback that the outcome concerns, with the arguments
      that the promise was settled with. */
  lemma {:induction false} CalledAtMostOnce(steps: seq<Step>, i: nat, j: nat, r: nat)
    returns (k: nat, m: nat, kind: Kind)
    requires InvokedAt(Run(steps), i, r) && InvokedAt(Run(steps), j, r)
    ensures i == j && SettledBy(steps, k) && RegisteredBy(steps, m, r, kind)
    ensures Concerns(steps[k].result, kind) && Run(steps).invoked[i].args == steps[k].args
  {
    CallFacts(steps, i, j, r);
    hide Run, Matches;
    k := WasSettledBy(steps);
    m := WasRegisteredBy(steps, r);
    kind := Run(steps).regs[r].kind;
    MatchesIff(Run(steps).core.result, kind);
  }

  lemma CallFacts(steps: seq<Step>, i: nat, j: nat, r: nat)
    requires InvokedAt(Run(steps), i, r) && InvokedAt(Run(steps), j, r)
    ensures i == j && r < |Run(steps).regs| && Run(steps).core.result != Pending
    ensures Matches(Run(steps).core.result, Run(steps).regs[r].kind)
    ensures Run(steps).invoked[i].args == Run(steps).core.args
  {
    RunInv(steps);
    var s := Run(steps);
    assert CallInv(s);
    hide Run, Inv, Due;
    assert WasInvoked(s, r) && Due(s, r);
    DueMatches(s, r);
  }

  lemma DueMatches(s: State, r: nat)
    requires Due(s, r)
    ensures r < |s.regs| && Matches(s.core.result, s.regs[r].kind)
  {
  }

  /** The outcome and its arguments are written once. */
  lemma {:induction false} SettledForever(steps: seq<Step>, step: Step)
    requires Run(steps).core.result != Pending
    ensures Run(steps + [step]).core.result == Run(steps).core.result
    ensures Run(steps + [step]).core.args == Run(steps).core.args
  {
    RunInv(steps);
    var s := Run(steps);
    assert s.delivery != NotCalled;
    RunMore(steps, step);
    assert CountInv(s);
    hide Run, Inv, CountInv;
    StaysSettled(s, step);
    hide Next;
  }

  /** Once the promise has been settled and every flush has ended, each registered callback has been called
      exactly if the outcome concerns its kind, and its reference has been released. */
  lemma {:induction false} QuiescentMeansServed(steps: seq<Step>, m: nat, r: nat, kind: Kind) returns (k: nat)
    requires Run(steps).delivery == Flushing && Run(steps).flushes == map[] && RegisteredBy(steps, m, r, kind)
    ensures SettledBy(steps, k)
    ensures WasInvoked(Run(steps), r) <==> Concerns(steps[k].result, kind)
    ensures r in Run(steps).released
  {
    RegisteredFrom(steps, m, r, kind);
    QuiescentServed(steps, r);
    hide Run, WasInvoked;
    k := WasSettledBy(steps);
    MatchesIff(Run(steps).core.result, kind);
  }

  lemma QuiescentServed(steps: seq<Step>, r: nat)
    requires Run(steps).delivery == Flushing && Run(steps).flushes == map[] && r < |Run(steps).regs|
    ensures WasInvoked(Run(steps), r) <==> Matches(Run(steps).core.result, Run(steps).regs[r].kind)
    ensures r in Run(steps).released && Run(steps).core.result != Pending
  {
    RunInv(steps);
    var s := Run(steps);
    assert CallInv(s) && s.core.lists == NO_CALLBACKS && s.core.result != Pending;
    QuiescentIsReleased(s, r);
    assert Due(s, r) <==> Matches(s.core.result, s.regs[r].kind) by { hide Run, Inv, CallInv, PlaceInv; }
    hide Run, Inv, Due;
  }

  lemma QuiescentIsReleased(s: State, r: nat)
    requires PlaceInv(s) && s.core.lists == NO_CALLBACKS && s.flushes == map[] && r < |s.regs|
    ensures s.regs[r].place == Released && r in s.released
  {
    FiledElements(s.regs, s.core.lists, Listed);
    assert r !in Elements(s.core.lists);
    hide Filed, Elements;
  }

  /** A callback's reference is released once, and if the outcome concerns the callback, only after its call. */
  lemma {:induction false} ReleasedAfterCall(steps: seq<Step>, i: nat) returns (m: nat, kind: Kind)
    requires i < |Run(steps).released|
    ensures RegisteredBy(steps, m, Run(steps).released[i], kind)
    ensures forall k: nat :: SettledBy(steps, k) && Concerns(steps[k].result, kind) ==>
              WasInvoked(Run(steps), Run(steps).released[i])
    ensures forall j :: 0 <= j < |Run(steps).released| && j != i ==> Run(steps).released[j] != Run(steps).released[i]
  {
    ReleasedFacts(steps, i);
    hide WasInvoked, Matches, Concerns;
    m := WasRegisteredBy(steps, Run(steps).released[i]);
    kind := Run(steps).regs[Run(steps).released[i]].kind;
    forall k: nat | SettledBy(steps, k) && Concerns(steps[k].result, kind)
      ensures WasInvoked(Run(steps), Run(steps).released[i])
    {
      SettledFrom(steps, k);
      MatchesIff(steps[k].result, kind);
    }
    hide Run;
  }

  lemma ReleasedFacts(steps: seq<Step>, i: nat)
    requires i < |Run(steps).released|
    ensures Run(steps).released[i] < |Run(steps).regs|
    ensures Matches(Run(steps).core.result, Run(steps).regs[Run(steps).released[i]].kind) ==>
              WasInvoked(Run(steps), Run(steps).released[i])
    ensures forall j :: 0 <= j < |Run(steps).released| && j != i ==> Run(steps).released[j] != Run(steps).released[i]
  {
    RunInv(steps);
    var s := Run(steps);
    var r := s.released[i];
    assert PlaceInv(s) && CallInv(s);
    assert r in s.released;
    hide Run, Inv, Filed;
    assert Matches(s.core.result, s.regs[r].kind) ==> Due(s, r);
    hide Due;
  }

  /** The promise outlives its work: while a flush is scheduled or under way, or the settler has yet to
      retain it, it is not freed; once freed it has been released by every owner. */
  lemma {:induction false} AliveWhileNeeded(steps: seq<Step>, f: nat)
    requires Run(steps).delivery == BeforeRetain || Run(steps).delivery == Scheduled || f in Run(steps).flushes
    ensures !Run(steps).freed && Run(steps).refCount > 0
  {
    RunInv(steps);
    var s := Run(steps);
    assert CountInv(s) && OwnerInv(s);
    hide Run, Inv;
    if f in s.flushes { CallerCounted(s, f); }
    hide OwnerInv;
  }

  /** When everybody has let go of a promise, it is freed, every callback it was ever given released, and
      exactly those called that an outcome concerned. */
  lemma {:induction false} FreedMeansReleased(steps: seq<Step>, m: nat, r: nat, kind: Kind)
    requires Run(steps).freed && RegisteredBy(steps, m, r, kind)
    ensures Run(steps).flushes == map[] && r in Run(steps).released
    ensures WasInvoked(Run(steps), r) <==> exists k: nat :: SettledBy(steps, k) && Concerns(steps[k].result, kind)
  {
    RegisteredFrom(steps, m, r, kind);
    FreedServed(steps, r);
    hide WasInvoked, Matches, Concerns;
    if Run(steps).core.result != Pending {
      var k := WasSettledBy(steps);
      MatchesIff(steps[k].result, kind);
      assert Concerns(steps[k].result, kind) ==> SettledBy(steps, k) && Concerns(steps[k].result, kind);
    }
    forall k: nat | SettledBy(steps, k) && Concerns(steps[k].result, kind)
      ensures Run(steps).core.result != Pending && Matches(Run(steps).core.result, kind)
    {
      SettledFrom(steps, k);
      MatchesIff(steps[k].result, kind);
    }
    PendingConcernsNone(kind);
    hide Run, SettledBy;
  }

  lemma PendingConcernsNone(kind: Kind)
    ensures !Matches(Pending, kind)
  {
  }

  lemma FreedServed(steps: seq<Step>, r: nat)
    requires Run(steps).freed && r < |Run(steps).regs|
    ensures Run(steps).flushes == map[] && r in Run(steps).released
    ensures WasInvoked(Run(steps), r) <==> Matches(Run(steps).core.result, Run(steps).regs[r].kind)
  {
    RunInv(steps);
    var s := Run(steps);
    assert CountInv(s) && OwnerInv(s) && PlaceInv(s) && CallInv(s);
    hide Run, Inv;
    forall f ensures f !in s.flushes {
      if f in s.flushes { CallerCounted(s, f); }
    }
    assert s.flushes == map[];
    hide CountInv, OwnerInv;
    QuiescentIsReleased(s, r);
    hide PlaceInv;
    assert Due(s, r) <==> Matches(s.core.result, s.regs[r].kind);
    hide Due;
  }

  /** What flush `f` of the run has called. */
  ghost function FlushCalls(steps: seq<Step>, f: nat): seq<nat> {
    RunLog(steps);
    CallsOf(Run(steps).invoked, Run(steps).flushOf, f)
  }

  /** At every point of every run, however calls and registrations are interleaved, what a flush has called is
      a prefix of its batch's callbacks for the outcome followed by its other ones; and all of that once the flush
      has ended. */
  lemma {:induction false} FlushFollowsBatch(steps: seq<Step>, f: nat)
    requires f < |Run(steps).batches|
    ensures var s := Run(steps);
            var batch := s.batches[f];
            var own := if s.core.result == Success then batch.onSuccess else batch.onFailure;
            && FlushCalls(steps, f) <= own + batch.onComplete
            && (f !in s.flushes ==> FlushCalls(steps, f) == own + batch.onComplete)
  {
    RunLog(steps);
    assert FlushLog(Run(steps), f);
    hide Run, CallsOf, Ordered;
  }

  /** So the calls a flush has made are in registration order, first those of the outcome's own kind and then
      the others. */
  lemma {:induction false} FlushOrder(steps: seq<Step>, f: nat, i: nat, j: nat)
    requires i < j < |FlushCalls(steps, f)|
    ensures var s := Run(steps);
            var calls := FlushCalls(steps, f);
            && calls[i] < |s.regs| && calls[j] < |s.regs|
            && (s.regs[calls[i]].kind == s.regs[calls[j]].kind ==> calls[i] < calls[j])
            && (s.regs[calls[i]].kind == Always ==> s.regs[calls[j]].kind == Always)
  {
    RunLog(steps);
    var s := Run(steps);
    if f >= s.nextFlush { NoCallsYet(s.invoked, s.flushOf, f); }
    FlushFollowsBatch(steps, f);
    assert FlushLog(s, f);
    hide Run, CallsOf, LogInv;
    RunListOrder(s.regs, s.batches[f], s.core.result, i, j);
  }

  lemma RunListOrder(regs: seq<Registration>, l: Lists, result: Verdict, i: nat, j: nat)
    requires Ordered(regs, l) && i < j < |RunList(result, l)|
    ensures var runs := RunList(result, l);
            && runs[i] < |regs| && runs[j] < |regs|
            && (regs[runs[i]].kind == regs[runs[j]].kind ==> runs[i] < runs[j])
            && (regs[runs[i]].kind == Always ==> regs[runs[j]].kind == Always)
  {
    var first := if result == Success then l.onSuccess else l.onFailure;
    var n := |first|;
    assert RunList(result, l) == first + l.onComplete;
    assert OfKind(regs, first, if result == Success then Done else Fail);
  }

  lemma NextBatches(s: State, step: Step)
    ensures s.batches <= Next(s, step).batches
  {
    hide RunList, Registered, Ended, Taken;
    match step
    case Register(kind) => RegisterKeeps(s, kind);
    case EndFlush(f) => EndKeeps(s, f);
    case BeginFlush => TakenKeeps(s);
    case _ =>
  }

  lemma BeginBatch(s: State)
    requires s.delivery == Scheduled
    ensures Next(s, BeginFlush).batches == s.batches + [s.core.lists]
  {
  }

  /** What the flush begun by a step calls from is fixed then, as the callbacks listed at that moment. */
  lemma {:induction false} BatchAtBegin(steps: seq<Step>, later: seq<Step>)
    requires Run(steps).delivery == Scheduled
    ensures var s, t := Run(steps), Run(steps + [BeginFlush] + later);
            |s.batches| < |t.batches| && t.batches[|s.batches|] == s.core.lists
  {
    hide Run, Next;
    var begun := steps + [BeginFlush];
    if later == [] {
      RunMore(steps, BeginFlush);
      BeginBatch(Run(steps));
      assert begun + later == begun;
    } else {
      var n := |later| - 1;
      BatchAtBegin(steps, later[..n]);
      RunMore(begun + later[..n], later[n]);
      NextBatches(Run(begun + later[..n]), later[n]);
      assert begun + later == begun + later[..n] + [later[n]];
    }
  }

  lemma RegisterBatch(s: State, kind: Kind)
    requires s.core.result != Pending && s.pageRefs > 0
    ensures Next(s, Register(kind)).batches == s.batches + [s.core.lists.Add(kind, |s.regs|)]
  {
    hide Moved, Elements;
  }

  /** So is what an `invoke` after settling flushes: the callbacks listed then, and the one it registers. */
  lemma {:induction false} BatchAtRegister(steps: seq<Step>, kind: Kind, later: seq<Step>)
    requires Run(steps).core.result != Pending && Run(steps).pageRefs > 0
    ensures var s, t := Run(steps), Run(steps + [Register(kind)] + later);
            |s.batches| < |t.batches| && t.batches[|s.batches|] == s.core.lists.Add(kind, |s.regs|)
  {
    hide Run, Next;
    var registered := steps + [Register(kind)];
    if later == [] {
      RunMore(steps, Register(kind));
      RegisterBatch(Run(steps), kind);
      assert registered + later == registered;
    } else {
      var n := |later| - 1;
      BatchAtRegister(steps, kind, later[..n]);
      RunMore(registered + later[..n], later[n]);
      NextBatches(Run(registered + later[..n]), later[n]);
      assert registered + later == registered + later[..n] + [later[n]];
    }
  }

  // ---- A flush that nothing interrupts is the loop of `Promise.InvokeCallbacks`.

  function CallTimes(s: State, f: nat, n: nat): State {
    if n == 0 then s else Called(CallTimes(s, f, n - 1), f)
  }

  lemma {:induction false} UninterruptedFlush(s: State, f: nat, n: nat)
    requires f in s.flushes && s.flushes[f].next == 0 && n <= |RunList(s.core.result, s.flushes[f].taken)|
    ensures var t := CallTimes(s, f, n);
            && t.core == s.core && f in t.flushes && t.flushes[f] == s.flushes[f].(next := n)
            && t.invoked == s.invoked + Invocations(RunList(s.core.result, s.flushes[f].taken)[..n], s.core.args)
  {
    hide RunList, Called, Invocations;
    if n > 0 {
      UninterruptedFlush(s, f, n - 1);
      CalledOnce(CallTimes(s, f, n - 1), f);
      InvocationsGrow(RunList(s.core.result, s.flushes[f].taken), n, s.core.args);
    }
  }

  lemma CalledOnce(s: State, f: nat)
    requires f in s.flushes && s.flushes[f].next < |RunList(s.core.result, s.flushes[f].taken)|
    ensures var t, flush := Called(s, f), s.flushes[f];
            && t.core == s.core && f in t.flushes && t.flushes[f] == flush.(next := flush.next + 1)
            && t.invoked == s.invoked + [Invocation(RunList(s.core.result, flush.taken)[flush.next], s.core.args)]
  {
    hide RunList;
  }

  lemma InvocationsGrow(runs: seq<nat>, n: nat, args: seq<int>)
    requires 0 < n <= |runs|
    ensures Invocations(runs[..n], args) == Invocations(runs[..n - 1], args) + [Invocation(runs[n - 1], args)]
  {
  }

  // ---- A settled promise can always finish its work.

  /** A step of the promise itself: nothing is registered, and nobody lets go of it. */
  predicate IsOwn(step: Step) {
    step.RetainAndSchedule? || step.BeginFlush? || step.CallNext? || step.EndFlush?
  }

  ghost predicate Quiescent(s: State) {
    s.delivery == Flushing && s.flushes == map[]
  }

  lemma EndedFlushes(s: State, f: nat)
    requires f in s.flushes && s.flushes[f].next >= |RunList(s.core.result, s.flushes[f].taken)|
    ensures Next(s, EndFlush(f)).flushes == s.flushes - {f} && Next(s, EndFlush(f)).delivery == s.delivery
  {
    hide RunList, Moved, Elements, Contents;
  }

  lemma CalledFlushes(s: State, f: nat)
    requires f in s.flushes && s.flushes[f].next < |RunList(s.core.result, s.flushes[f].taken)|
    ensures var t := Next(s, CallNext(f));
            && t.flushes == s.flushes[f := s.flushes[f].(next := s.flushes[f].next + 1)]
            && t.delivery == s.delivery && t.core == s.core
  {
    hide RunList;
  }

  /** A flush under way can call its remaining callbacks and end, and leaves the others as they are. */
  lemma {:induction false} FinishFlush(steps: seq<Step>, f: nat) returns (more: seq<Step>)
    requires f in Run(steps).flushes
    ensures forall step <- more :: IsOwn(step)
    ensures Run(steps + more).flushes == Run(steps).flushes - {f} && Run(steps + more).delivery == Run(steps).delivery
    decreases |RunList(Run(steps).core.result, Run(steps).flushes[f].taken)| - Run(steps).flushes[f].next
  {
    var s := Run(steps);
    hide Run, Next, RunList;
    if s.flushes[f].next < |RunList(s.core.result, s.flushes[f].taken)| {
      RunMore(steps, CallNext(f));
      CalledFlushes(s, f);
      var rest := FinishFlush(steps + [CallNext(f)], f);
      more := [CallNext(f)] + rest;
      assert steps + more == steps + [CallNext(f)] + rest;
    } else {
      RunMore(steps, EndFlush(f));
      EndedFlushes(s, f);
      more := [EndFlush(f)];
    }
  }

  lemma {:induction false} FinishFlushes(steps: seq<Step>) returns (more: seq<Step>)
    ensures forall step <- more :: IsOwn(step)
    ensures Run(steps + more).flushes == map[] && Run(steps + more).delivery == Run(steps).delivery
    decreases |Run(steps).flushes|
  {
    hide Run, Next;
    if Run(steps).flushes == map[] {
      more := [];
      assert steps + more == steps;
    } else {
      var f :| f in Run(steps).flushes;
      var first := FinishFlush(steps, f);
      var rest := FinishFlushes(steps + first);
      more := first + rest;
      assert steps + more == steps + first + rest;
    }
  }

  /** However far it has got, a settled promise can come to rest by steps of its own; all its callbacks are then
      called that are to be (`QuiescentMeansServed`). */
  lemma {:induction false} CanQuiesce(steps: seq<Step>) returns (more: seq<Step>)
    requires Run(steps).core.result != Pending
    ensures forall step <- more :: IsOwn(step)
    ensures Quiescent(Run(steps + more))
  {
    SettledIsDelivered(steps);
    hide Run;
    var begun := BeginOwn(steps);
    var rest := FinishFlushes(steps + begun);
    more := begun + rest;
    assert steps + more == steps + begun + rest;
  }

  lemma SettledIsDelivered(steps: seq<Step>)
    ensures Run(steps).core.result != Pending ==> Run(steps).delivery != NotCalled
  {
    RunInv(steps);
    assert CountInv(Run(steps));
    hide Run, Inv;
  }

  lemma BeginOwn(steps: seq<Step>) returns (more: seq<Step>)
    requires Run(steps).delivery != NotCalled
    ensures forall step <- more :: IsOwn(step)
    ensures Run(steps + more).delivery == Flushing
  {
    hide Run;
    var scheduled := steps;
    more := [];
    if Run(steps).delivery == BeforeRetain {
      more := [RetainAndSchedule];
      RunMore(steps, RetainAndSchedule);
      scheduled := steps + [RetainAndSchedule];
    }
    assert steps + more == scheduled;
    if Run(scheduled).delivery == Scheduled {
      more := more + [BeginFlush];
      RunMore(scheduled, BeginFlush);
      assert steps + more == scheduled + [BeginFlush];
    }
  }

  /** What the owners of a promise at rest are. */
  lemma QuiescentOwners(steps: seq<Step>)
    requires Quiescent(Run(steps))
    ensures var s := Run(steps);
            && s.callers == 0 && (s.freed <==> s.refCount == 0)
            && s.refCount == s.pageRefs + if s.settlerRef then 1 else 0
  {
    RunInv(steps);
    assert CountInv(Run(steps)) && OwnerInv(Run(steps));
    hide Run, Inv;
    assert Callers(Run(steps)) == {};
    assert forall f :: !OwnFlush(Run(steps), f);
  }

  lemma LetGoOnce(s: State, step: Step)
    requires Quiescent(s) && s.callers == 0
    requires if s.settlerRef then step == ReleaseSettler else s.pageRefs > 0 && step == ReleasePage
    ensures var t := Next(s, step);
            Quiescent(t) && !t.settlerRef && t.pageRefs == if s.settlerRef then s.pageRefs else s.pageRefs - 1
  {
    hide Moved, Elements, Contents;
  }

  ghost function Left(s: State): nat {
    s.pageRefs + if s.settlerRef then 1 else 0
  }

  /** A promise at rest is freed once the settler and the page have let go of it. */
  lemma {:induction false} CanBeFreed(steps: seq<Step>) returns (more: seq<Step>)
    requires Quiescent(Run(steps))
    ensures forall step <- more :: step == ReleaseSettler || step == ReleasePage
    ensures Run(steps + more).freed
    decreases Left(Run(steps))
  {
    hide Run, Quiescent;
    QuiescentOwners(steps);
    if Left(Run(steps)) == 0 {
      more := [];
      assert steps + more == steps;
    } else {
      var step := LetGoNext(steps);
      hide Left;
      var rest := CanBeFreed(steps + [step]);
      more := [step] + rest;
      assert steps + more == steps + [step] + rest;
    }
  }

  lemma LetGoNext(steps: seq<Step>) returns (step: Step)
    requires Quiescent(Run(steps)) && Left(Run(steps)) > 0
    ensures step == ReleaseSettler || step == ReleasePage
    ensures Quiescent(Run(steps + [step])) && Left(Run(steps + [step])) < Left(Run(steps))
  {
    QuiescentOwners(steps);
    step := if Run(steps).settlerRef then ReleaseSettler else ReleasePage;
    RunMore(steps, step);
    hide Run, Next, Quiescent;
    LetGoOnce(Run(steps), step);
  }
}
