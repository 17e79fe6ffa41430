/** Where the outcome and the registrations of a run come from: the steps that settled the promise and registered
    the callbacks. */
module PromiseOrigins {
  import opened Promises
  import opened PromiseRuns
  import opened PromiseInvariant

  predicate IsSettling(step: Step) {
    step.Settle? && step.result != Pending
  }

  /** The `k`th step settles the promise: nothing has settled it before, and the settler has not let go of it. */
  ghost predicate SettledBy(steps: seq<Step>, k: nat) {
    && k < |steps| && IsSettling(steps[k])
    && forall i :: 0 <= i < k ==> !IsSettling(steps[i]) && !steps[i].ReleaseSettler?
  }

  /** No step has settled the promise or let go of it for the settler. */
  ghost predicate Untouched(steps: seq<Step>) {
    forall i :: 0 <= i < |steps| ==> !IsSettling(steps[i]) && !steps[i].ReleaseSettler?
  }

  /** How a single step changes what the settler has done. */
  lemma NextSettler(s: State, step: Step)
    requires CountInv(s)
    ensures var t := Next(s, step);
            && (t.settlerRef <==> s.settlerRef && !(step.ReleaseSettler? && s.delivery != BeforeRetain))
            && (t.delivery == NotCalled <==> s.delivery == NotCalled && !(IsSettling(step) && s.settlerRef))
            && (s.delivery == NotCalled && t.delivery != NotCalled ==>
                  t.core.result == step.result && t.core.args == step.args)
  {
    hide RunList, Moved, Elements, Contents;
    match step
    case Register(kind) => hide Next; SettlerKept(s, step);
    case EndFlush(f) => hide Next; SettlerKept(s, step);
    case BeginFlush => hide Next; SettlerKept(s, step);
    case _ =>
  }

  lemma SettlerKept(s: State, step: Step)
    requires step.Register? || step.EndFlush? || step.BeginFlush?
    ensures var t := Next(s, step);
            t.settlerRef == s.settlerRef && (t.delivery == NotCalled <==> s.delivery == NotCalled)
  {
    hide RunList, Moved, Elements, Contents, Emptied;
  }

  lemma StaysSettled(s: State, step: Step)
    requires s.delivery != NotCalled
    ensures Next(s, step).core.result == s.core.result && Next(s, step).core.args == s.core.args
  {
    hide RunList, Registered, Ended, Taken;
    match step
    case Register(kind) => RegisterKeeps(s, kind);
    case EndFlush(f) => EndKeeps(s, f);
    case BeginFlush => TakenKeeps(s);
    case _ =>
  }

  lemma RegisterKeeps(s: State, kind: Kind)
    ensures Registered(s, kind).core.result == s.core.result && Registered(s, kind).core.args == s.core.args
    ensures s.batches <= Registered(s, kind).batches
  {
    hide Moved, Elements;
  }

  lemma EndKeeps(s: State, f: nat)
    ensures Ended(s, f).core.result == s.core.result && Ended(s, f).core.args == s.core.args
    ensures Ended(s, f).batches == s.batches
  {
    hide Moved, Elements, Contents, RunList;
  }

  lemma TakenKeeps(s: State)
    ensures Taken(s, true).core.result == s.core.result && Taken(s, true).core.args == s.core.args
    ensures s.batches <= Taken(s, true).batches
  {
    hide Moved, Elements;
  }

  /** The settler can still settle the promise exactly if no step has done so or let go of it. */
  lemma {:induction false} OpenIff(steps: seq<Step>)
    ensures Run(steps).delivery == NotCalled && Run(steps).settlerRef <==> Untouched(steps)
  {
    if steps != [] {
      var n := |steps| - 1;
      OpenIff(steps[..n]);
      SettlerStep(steps[..n], steps[n]);
      UntouchedMore(steps);
      hide IsSettling, Untouched, Next;
    }
  }

  lemma UntouchedMore(steps: seq<Step>)
    requires steps != []
    ensures var n := |steps| - 1;
            Untouched(steps) <==> Untouched(steps[..n]) && !IsSettling(steps[n]) && !steps[n].ReleaseSettler?
  {
    hide IsSettling;
  }

  /** `NextSettler` along a run. */
  lemma SettlerStep(steps: seq<Step>, step: Step)
    ensures var s, t := Run(steps), Next(Run(steps), step);
            && (t.settlerRef <==> s.settlerRef && !(step.ReleaseSettler? && s.delivery != BeforeRetain))
            && (t.delivery == NotCalled <==> s.delivery == NotCalled && !(IsSettling(step) && s.settlerRef))
            && (s.delivery == NotCalled && t.delivery != NotCalled ==>
                  t.core.result == step.result && t.core.args == step.args)
            && (s.core.result == Pending <==> s.delivery == NotCalled)
            && (t.core.result == Pending <==> t.delivery == NotCalled)
  {
    RunInv(steps);
    assert CountInv(Run(steps));
    RunInv(steps + [step]);
    RunMore(steps, step);
    assert CountInv(Next(Run(steps), step));
    hide Run, Inv;
    NextSettler(Run(steps), step);
    hide Next, IsSettling;
  }

  /** The outcome and the arguments of a promise are those of the step that settled it. */
  lemma {:induction false} WasSettledBy(steps: seq<Step>) returns (k: nat)
    requires Run(steps).core.result != Pending
    ensures SettledBy(steps, k)
    ensures Run(steps).core.result == steps[k].result && Run(steps).core.args == steps[k].args
  {
    var n := |steps| - 1;
    hide Next, SettledBy;
    assert Run(steps) == Next(Run(steps[..n]), steps[n]);
    SettlerStep(steps[..n], steps[n]);
    hide Run;
    if Run(steps[..n]).core.result != Pending {
      k := WasSettledBy(steps[..n]);
      StaysSettled(Run(steps[..n]), steps[n]);
      SettledLonger(steps, k);
    } else {
      k := n;
      SettledNow(steps);
    }
  }

  lemma SettledNow(steps: seq<Step>)
    requires steps != [] && Run(steps[..|steps| - 1]).core.result == Pending && Run(steps).core.result != Pending
    ensures var n := |steps| - 1;
            SettledBy(steps, n) && Run(steps).core.result == steps[n].result && Run(steps).core.args == steps[n].args
  {
    var n := |steps| - 1;
    hide Next;
    assert Run(steps) == Next(Run(steps[..n]), steps[n]);
    SettlerStep(steps[..n], steps[n]);
    OpenIff(steps[..n]);
    hide Run;
    assert Untouched(steps[..n]);
    hide IsSettling;
    forall i | 0 <= i < n ensures !IsSettling(steps[i]) && !steps[i].ReleaseSettler? {
      assert steps[..n][i] == steps[i];
    }
  }

  lemma SettledLonger(steps: seq<Step>, k: nat)
    requires steps != [] && SettledBy(steps[..|steps| - 1], k)
    ensures SettledBy(steps, k) && steps[k] == steps[..|steps| - 1][k]
  {
    hide IsSettling;
  }

  /** And such a step settles it for good. */
  lemma {:induction false} SettledFrom(steps: seq<Step>, k: nat)
    requires SettledBy(steps, k)
    ensures Run(steps).core.result == steps[k].result && Run(steps).core.args == steps[k].args
    ensures Run(steps).delivery != NotCalled
  {
    var n := |steps| - 1;
    var s := Run(steps[..n]);
    SettlerStep(steps[..n], steps[n]);
    hide Next;
    if k < n {
      SettledFrom(steps[..n], k);
      StaysSettled(s, steps[n]);
    } else {
      OpenIff(steps[..n]);
    }
  }

  // ---- Registrations.

  /** How a single step changes which callbacks are registered. */
  lemma NextRegs(s: State, step: Step)
    ensures var t, added := Next(s, step), step.Register? && s.pageRefs > 0;
            && |t.regs| == |s.regs| + (if added then 1 else 0)
            && (forall r :: 0 <= r < |s.regs| ==> t.regs[r].kind == s.regs[r].kind)
            && (added ==> t.regs[|s.regs|].kind == step.kind)
  {
    hide RunList, Elements, Contents, Moved, Emptied, Settled;
    match step
    case Register(kind) => RegisteredRegs(s, kind); hide Registered;
    case CallNext(f) => hide Ended, Unref, Taken;
    case EndFlush(f) => EndedRegs(s, f); hide Ended;
    case _ => hide Registered, Ended, Called;
  }

  lemma RegisteredRegs(s: State, kind: Kind)
    ensures var t, added := Registered(s, kind), s.pageRefs > 0;
            && |t.regs| == |s.regs| + (if added then 1 else 0)
            && (forall r :: 0 <= r < |s.regs| ==> t.regs[r].kind == s.regs[r].kind)
            && (added ==> t.regs[|s.regs|].kind == kind)
  {
    hide Elements, Moved, Emptied;
  }

  lemma EndedRegs(s: State, f: nat)
    ensures |Ended(s, f).regs| == |s.regs|
    ensures forall r :: 0 <= r < |s.regs| ==> Ended(s, f).regs[r].kind == s.regs[r].kind
  {
    hide RunList, Elements, Contents, Moved;
  }

  /** The `m`th step registers callback `r`, as one of this kind. */
  ghost predicate RegisteredBy(steps: seq<Step>, m: nat, r: nat, kind: Kind) {
    m < |steps| && steps[m] == Register(kind) && Run(steps[..m]).pageRefs > 0 && |Run(steps[..m]).regs| == r
  }

  /** Every callback was registered by a step of the run, as the kind it has. */
  lemma {:induction false} WasRegisteredBy(steps: seq<Step>, r: nat) returns (m: nat)
    requires r < |Run(steps).regs|
    ensures RegisteredBy(steps, m, r, Run(steps).regs[r].kind)
  {
    var n := |steps| - 1;
    NextRegs(Run(steps[..n]), steps[n]);
    assert Run(steps) == Next(Run(steps[..n]), steps[n]);
    hide Run, Next;
    if r < |Run(steps[..n]).regs| {
      m := WasRegisteredBy(steps[..n], r);
      assert steps[..n][..m] == steps[..m];
    } else {
      m := n;
    }
  }

  /** Registrations stay, as the kinds they are. */
  lemma {:induction false} RegsKept(steps: seq<Step>, k: nat, r: nat)
    requires k <= |steps| && r < |Run(steps[..k]).regs|
    ensures r < |Run(steps).regs| && Run(steps).regs[r].kind == Run(steps[..k]).regs[r].kind
  {
    if k == |steps| {
      assert steps[..k] == steps;
    } else {
      var before := steps[..|steps| - 1];
      assert before[..k] == steps[..k];
      assert Run(steps) == Next(Run(before), steps[|steps| - 1]);
      hide Run, Next;
      RegsKept(before, k, r);
      NextRegs(Run(before), steps[|steps| - 1]);
    }
  }

  lemma RegisteredNow(before: seq<Step>, kind: Kind)
    requires Run(before).pageRefs > 0
    ensures var s, t := Run(before), Run(before + [Register(kind)]);
            |t.regs| == |s.regs| + 1 && t.regs[|s.regs|].kind == kind
  {
    RunMore(before, Register(kind));
    hide Run, Next;
    NextRegs(Run(before), Register(kind));
  }

  /** And every step that registers one leaves it registered as that kind. */
  lemma RegisteredFrom(steps: seq<Step>, m: nat, r: nat, kind: Kind)
    requires RegisteredBy(steps, m, r, kind)
    ensures r < |Run(steps).regs| && Run(steps).regs[r].kind == kind
  {
    hide Run;
    RegisteredNow(steps[..m], kind);
    assert steps[..m + 1] == steps[..m] + [Register(kind)];
    RegsKept(steps, m + 1, r);
  }

  // ---- Which callbacks an outcome concerns.

  predicate Concerns(result: Verdict, kind: Kind) {
    kind == Always || (kind == Done && result == Success) || (kind == Fail && result == Failure)
  }

  lemma MatchesIff(result: Verdict, kind: Kind)
    requires result != Pending
    ensures Matches(result, kind) <==> Concerns(result, kind)
  {
  }

  lemma RunMore(steps: seq<Step>, step: Step)
    ensures Run(steps + [step]) == Next(Run(steps), step)
  {
    assert (steps + [step])[..|steps|] == steps;
  }
}
