/** Which callbacks each flush of a promise has called, and in which order. */
module PromiseLog {
  import opened Promises
  import opened PromiseRuns
  import opened PromiseInvariant

  /** The callbacks that flush `f` called, in the order of the calls. */
  function CallsOf(invoked: seq<Invocation>, flushOf: seq<nat>, f: nat): seq<nat>
    requires |flushOf| == |invoked|
  {
    if invoked == [] then []
    else
      var n := |invoked| - 1;
      CallsOf(invoked[..n], flushOf[..n], f) + if flushOf[n] == f then [invoked[n].r] else []
  }

  ghost predicate OfKind(regs: seq<Registration>, rs: seq<nat>, kind: Kind) {
    Increasing(rs) && forall i :: 0 <= i < |rs| ==> rs[i] < |regs| && regs[rs[i]].kind == kind
  }

  /** Each array holds registrations of its kind, in the order they were made. */
  ghost predicate Ordered(regs: seq<Registration>, l: Lists) {
    OfKind(regs, l.onSuccess, Done) && OfKind(regs, l.onFailure, Fail) && OfKind(regs, l.onComplete, Always)
  }

  ghost predicate FlushLog(s: State, f: nat)
    requires |s.flushOf| == |s.invoked| && f < |s.batches|
  {
    var runs := RunList(s.core.result, s.batches[f]);
    && Ordered(s.regs, s.batches[f])
    && (f in s.flushes ==> s.flushes[f].taken == s.batches[f] && s.flushes[f].next <= |runs|)
    && CallsOf(s.invoked, s.flushOf, f) == if f in s.flushes then runs[..s.flushes[f].next] else runs
  }

  /** A flush under way has called what it has come to, and one that has ended all it had to call. */
  ghost predicate LogInv(s: State) {
    && |s.flushOf| == |s.invoked| && |s.batches| == s.nextFlush
    && (forall i :: 0 <= i < |s.flushOf| ==> s.flushOf[i] < s.nextFlush)
    && (s.core.result == Pending ==> s.nextFlush == 0)
    && (forall f: nat :: f < s.nextFlush ==> FlushLog(s, f))
  }

  lemma CallsOfMore(invoked: seq<Invocation>, flushOf: seq<nat>, call: Invocation, g: nat, f: nat)
    requires |flushOf| == |invoked|
    ensures CallsOf(invoked + [call], flushOf + [g], f)
         == CallsOf(invoked, flushOf, f) + if g == f then [call.r] else []
  {
    assert (invoked + [call])[..|invoked|] == invoked && (flushOf + [g])[..|flushOf|] == flushOf;
  }

  lemma {:induction false} NoCallsYet(invoked: seq<Invocation>, flushOf: seq<nat>, f: nat)
    requires |flushOf| == |invoked| && forall i :: 0 <= i < |flushOf| ==> flushOf[i] != f
    ensures CallsOf(invoked, flushOf, f) == []
  {
    if invoked != [] { NoCallsYet(invoked[..|invoked| - 1], flushOf[..|invoked| - 1], f); }
  }

  /** Registrations are added, and keep their kinds. */
  ghost predicate KindsKept(a: seq<Registration>, b: seq<Registration>) {
    |a| <= |b| && forall r :: 0 <= r < |a| ==> b[r].kind == a[r].kind
  }

  lemma OrderedKept(a: seq<Registration>, b: seq<Registration>, l: Lists)
    requires KindsKept(a, b) && Ordered(a, l)
    ensures Ordered(b, l)
  {
    hide Increasing;
  }

  lemma FiledOrdered(regs: seq<Registration>, l: Lists, place: Place)
    requires Filed(regs, l, place)
    ensures Ordered(regs, l)
  {
    hide Increasing;
    assert forall i :: 0 <= i < |l.onSuccess| ==> l.onSuccess[i] in l.onSuccess;
    assert forall i :: 0 <= i < |l.onFailure| ==> l.onFailure[i] in l.onFailure;
    assert forall i :: 0 <= i < |l.onComplete| ==> l.onComplete[i] in l.onComplete;
  }

  /** Nothing `LogInv` speaks of has changed, but for more registrations and the outcome while pending. */
  ghost predicate SameLog(s: State, t: State) {
    && t.invoked == s.invoked && t.flushOf == s.flushOf && t.batches == s.batches && t.nextFlush == s.nextFlush
    && t.flushes == s.flushes && KindsKept(s.regs, t.regs)
    && (t.core.result == s.core.result || (s.core.result == Pending && t.core.result != Pending))
  }

  lemma SameLogInv(s: State, t: State)
    requires LogInv(s) && SameLog(s, t)
    ensures LogInv(t)
  {
    hide RunList, CallsOf, Ordered, KindsKept;
    forall f: nat | f < t.nextFlush
      ensures FlushLog(t, f)
    {
      assert FlushLog(s, f);
      OrderedKept(s.regs, t.regs, s.batches[f]);
    }
  }

  lemma UnrefLog(s: State)
    requires LogInv(s)
    ensures LogInv(Unref(s))
  {
    hide LogInv, Elements, Contents;
    SameLogInv(s, Unref(s));
  }

  lemma TakenLog(s: State, own: bool)
    requires LogInv(s) && s.core.result != Pending && Filed(s.regs, s.core.lists, Listed)
    requires forall f :: f in s.flushes ==> f < s.nextFlush
    ensures LogInv(Taken(s, own))
  {
    hide RunList, CallsOf, Filed, Elements, FlushLog;
    forall f: nat | f < Taken(s, own).nextFlush
      ensures FlushLog(Taken(s, own), f)
    {
      TakenFlushLog(s, own, f);
    }
  }

  lemma TakenFlushLog(s: State, own: bool, f: nat)
    requires LogInv(s) && s.core.result != Pending && Filed(s.regs, s.core.lists, Listed)
    requires (forall g :: g in s.flushes ==> g < s.nextFlush) && f <= s.nextFlush
    ensures FlushLog(Taken(s, own), f)
  {
    var t := Taken(s, own);
    FiledOrdered(s.regs, s.core.lists, Listed);
    NoCallsYet(s.invoked, s.flushOf, s.nextFlush);
    if f < s.nextFlush { assert FlushLog(s, f) && t.batches[f] == s.batches[f]; }
    hide RunList, CallsOf, Ordered, Filed, Elements;
    OrderedKept(s.regs, t.regs, t.batches[f]);
  }

  lemma RegisterLog(s: State, kind: Kind)
    requires LogInv(s) && PlaceInv(s) && (s.freed ==> s.pageRefs == 0) && forall f :: f in s.flushes ==> f < s.nextFlush
    ensures LogInv(Registered(s, kind))
  {
    if s.pageRefs > 0 {
      AddFiled(s.regs, s.core.lists, kind);
      hide LogInv, PlaceInv, Filed;
      SameLogInv(s, Added(s, kind));
      RegisterFlushLog(s, kind);
    }
  }

  /** A callback added after settling starts a flush. */
  lemma RegisterFlushLog(s: State, kind: Kind)
    requires var a := Added(s, kind);
             s.pageRefs > 0 && !s.freed && LogInv(a) && Filed(a.regs, a.core.lists, Listed)
    requires forall f :: f in s.flushes ==> f < s.nextFlush
    ensures LogInv(Registered(s, kind))
  {
    hide LogInv, PlaceInv, Filed;
    if s.core.result == Pending {
      SameLogInv(Added(s, kind), Registered(s, kind));
    } else {
      TakenLog(Added(s, kind), false);
      hide Taken;
      SameLogInv(Taken(Added(s, kind), false), Registered(s, kind));
    }
  }

  lemma CalledLog(s: State, f: nat)
    requires LogInv(s) && (f in s.flushes ==> f < s.nextFlush)
    ensures LogInv(Called(s, f))
  {
    var t := Called(s, f);
    if t != s {
      hide RunList, FlushLog;
      forall g: nat | g < t.nextFlush
        ensures FlushLog(t, g)
      {
        CalledFlushLog(s, f, g);
      }
    }
  }

  lemma CalledFlushLog(s: State, f: nat, g: nat)
    requires |s.flushOf| == |s.invoked| && f in s.flushes && f < |s.batches| && g < |s.batches|
    requires FlushLog(s, f) && FlushLog(s, g) && s.flushes[f].next < |RunList(s.core.result, s.flushes[f].taken)|
    ensures FlushLog(Called(s, f), g)
  {
    hide RunList, CallsOf, Ordered;
    var runs, n := RunList(s.core.result, s.flushes[f].taken), s.flushes[f].next;
    assert runs[..n + 1] == runs[..n] + [runs[n]];
    CallsOfMore(s.invoked, s.flushOf, Invocation(runs[n], s.core.args), f, g);
  }

  lemma EndedLog(s: State, f: nat)
    requires LogInv(s) && (f in s.flushes ==> f < s.nextFlush)
    ensures LogInv(Ended(s, f))
  {
    if f in s.flushes && s.flushes[f].next >= |RunList(s.core.result, s.flushes[f].taken)| {
      assert FlushLog(s, f);
      var e := Emptying(s, f);
      EmptyingLog(s, f);
      hide LogInv, FlushLog, RunList, Elements, Contents, Unref;
      if s.flushes[f].own {
        SameLogInv(e, e.(selfRef := false));
        UnrefLog(e.(selfRef := false));
      } else {
        SameLogInv(e, Ended(s, f));
      }
    }
  }

  lemma EmptyingLog(s: State, f: nat)
    requires LogInv(s) && f in s.flushes && f < s.nextFlush
    requires s.flushes[f].next >= |RunList(s.core.result, s.flushes[f].taken)|
    ensures LogInv(Emptying(s, f))
  {
    var t := Emptying(s, f);
    assert KindsKept(s.regs, t.regs);
    hide RunList, CallsOf, Ordered, Elements, Contents, Moved, KindsKept;
    forall g: nat | g < t.nextFlush
      ensures FlushLog(t, g)
    {
      assert FlushLog(s, g);
      OrderedKept(s.regs, t.regs, s.batches[g]);
    }
  }

  lemma LogFacts(s: State)
    requires Inv(s)
    ensures PlaceInv(s) && Filed(s.regs, s.core.lists, Listed) && (s.freed ==> s.pageRefs == 0)
    ensures forall f :: f in s.flushes ==> f < s.nextFlush
    ensures s.delivery == Scheduled ==> s.core.result != Pending
    ensures s.delivery == NotCalled ==> s.core.result == Pending
  {
    hide Filed, CallInv;
  }

  lemma NextLog(s: State, step: Step)
    requires Inv(s) && LogInv(s)
    ensures LogInv(Next(s, step))
  {
    LogFacts(s);
    hide Inv, LogInv, PlaceInv, Filed, Registered, Called, Ended, Unref, Taken, SameLog;
    match step
    case Register(kind) => RegisterLog(s, kind);
    case BeginFlush => if s.delivery == Scheduled { BeginLog(s); }
    case CallNext(f) => CalledLog(s, f);
    case EndFlush(f) => EndedLog(s, f);
    case ReleasePage => ReleaseLog(s, s.(pageRefs := if s.pageRefs > 0 then s.pageRefs - 1 else 0));
    case ReleaseSettler => ReleaseLog(s, s.(settlerRef := false));
    case _ => PlainLog(s, step);
  }

  lemma BeginLog(s: State)
    requires LogInv(s) && Filed(s.regs, s.core.lists, Listed) && s.delivery == Scheduled && s.core.result != Pending
    requires forall f :: f in s.flushes ==> f < s.nextFlush
    ensures LogInv(Next(s, BeginFlush))
  {
    hide LogInv, Filed, Taken;
    TakenLog(s, true);
    SameLogInv(Taken(s, true), Next(s, BeginFlush));
  }

  lemma ReleaseLog(s: State, t: State)
    requires LogInv(s) && t == s.(pageRefs := t.pageRefs, settlerRef := t.settlerRef)
    ensures LogInv(Unref(t))
  {
    hide LogInv;
    UnrefAfter(s, t);
  }

  lemma PlainLog(s: State, step: Step)
    requires LogInv(s) && (step.Settle? || step.RetainAndSchedule? || step.RetainPage?)
    requires s.delivery == NotCalled ==> s.core.result == Pending
    ensures LogInv(Next(s, step))
  {
    hide LogInv;
    SameLogInv(s, Next(s, step));
  }

  lemma UnrefAfter(s: State, t: State)
    requires LogInv(s) && SameLog(s, t)
    ensures LogInv(Unref(t))
  {
    SameLogInv(s, t);
    UnrefLog(t);
  }

  lemma {:induction false} RunLog(steps: seq<Step>)
    ensures LogInv(Run(steps))
  {
    if steps != [] {
      RunLog(steps[..|steps| - 1]);
      RunInv(steps[..|steps| - 1]);
      hide Inv, LogInv, Next;
      NextLog(Run(steps[..|steps| - 1]), steps[|steps| - 1]);
    }
  }
}
