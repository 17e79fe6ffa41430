/** What every interleaving of a promise's steps keeps. */
module PromiseInvariant {
  import opened Promises
  import opened PromiseRuns

  // ---- References to the promise.

  ghost function Callers(s: State): set<nat> {
    set f | f in s.flushes && !s.flushes[f].own
  }

  ghost predicate OwnFlush(s: State, f: nat) {
    f in s.flushes && s.flushes[f].own
  }

  /** The count is the number of owners, and the page is one while it is inside an `invoke`. */
  ghost predicate CountInv(s: State) {
    && s.refCount == s.pageRefs + (if s.settlerRef then 1 else 0) + (if s.selfRef then 1 else 0)
    && s.pageRefs >= Held(s)
    && (s.freed <==> s.refCount == 0)
    && (s.delivery == BeforeRetain ==> s.settlerRef)
    && (s.delivery == Scheduled ==> s.selfRef)
    && (s.core.result == Pending <==> s.delivery == NotCalled)
    && (s.delivery == Flushing ==> s.core.lists == NO_CALLBACKS)
    && (s.core.result == Pending ==> s.flushes == map[])
  }

  /** A flush is the one that owns the self-reference, from its retain on, or one of an `invoke`. */
  ghost predicate OwnerInv(s: State) {
    && (forall f :: f in s.flushes ==> f < s.nextFlush)
    && s.callers == |Callers(s)|
    && (s.selfRef <==> s.delivery == Scheduled || exists f :: OwnFlush(s, f))
    && (forall f :: OwnFlush(s, f) ==> s.delivery == Flushing)
    && (forall f, g :: OwnFlush(s, f) && OwnFlush(s, g) ==> f == g)
  }

  // ---- References to the callbacks.

  ghost predicate Increasing(rs: seq<nat>) {
    forall i, j :: 0 <= i < j < |rs| ==> rs[i] < rs[j]
  }

  /** `rs` lists the registrations that are as `reg`, in order. */
  ghost predicate FiledOne(regs: seq<Registration>, rs: seq<nat>, reg: Registration) {
    Increasing(rs) && forall r: nat :: r in rs <==> r < |regs| && regs[r] == reg
  }

  /** The arrays of `l` list the registrations at `place`, each kind its own. */
  ghost predicate Filed(regs: seq<Registration>, l: Lists, place: Place) {
    && FiledOne(regs, l.onSuccess, Registration(Done, place))
    && FiledOne(regs, l.onFailure, Registration(Fail, place))
    && FiledOne(regs, l.onComplete, Registration(Always, place))
  }

  /** Each registration is in the arrays, in one flush or released, exactly once. */
  ghost predicate PlaceInv(s: State) {
    && Filed(s.regs, s.core.lists, Listed)
    && (forall f :: f in s.flushes ==> Filed(s.regs, s.flushes[f].taken, InFlush(f)))
    && (forall r :: 0 <= r < |s.regs| && s.regs[r].place.InFlush? ==> s.regs[r].place.f in s.flushes)
    && (forall r: nat :: r in s.released <==> r < |s.regs| && s.regs[r].place == Released)
    && Distinct(s.released)
    && (s.released != [] ==> s.freed || s.core.result != Pending)
    && (s.freed ==> s.core.lists == NO_CALLBACKS)
  }

  // ---- Calls.

  ghost predicate WasInvoked(s: State, r: nat) {
    exists i :: 0 <= i < |s.invoked| && s.invoked[i].r == r
  }

  /** The callbacks a flush has come to. */
  ghost predicate Passed(result: Verdict, flush: Flush, r: nat) {
    exists i :: 0 <= i < flush.next && i < |RunList(result, flush.taken)| && RunList(result, flush.taken)[i] == r
  }

  /** The callbacks whose turn has come: of the right kind, and released or passed by their flush. */
  ghost predicate Due(s: State, r: nat) {
    && r < |s.regs| && Matches(s.core.result, s.regs[r].kind)
    && match s.regs[r].place
       case Listed => false
       case InFlush(f) => f in s.flushes && Passed(s.core.result, s.flushes[f], r)
       case Released => true
  }

  /** A callback has been called iff its turn has come and its kind matches the outcome; once only, and with
      the settled arguments. */
  ghost predicate CallInv(s: State) {
    && (forall r: nat :: WasInvoked(s, r) <==> Due(s, r))
    && (forall i, j :: 0 <= i < j < |s.invoked| ==> s.invoked[i].r != s.invoked[j].r)
    && (forall i :: 0 <= i < |s.invoked| ==> s.invoked[i].args == s.core.args)
    && (forall f :: f in s.flushes ==> s.flushes[f].next <= |RunList(s.core.result, s.flushes[f].taken)|)
  }

  ghost predicate Inv(s: State) {
    CountInv(s) && OwnerInv(s) && PlaceInv(s) && CallInv(s)
  }

  // ---- The counts are kept.

  /** What keeps the promise while a flush is under way. */
  lemma CallerCounted(s: State, f: nat)
    requires OwnerInv(s) && f in s.flushes
    ensures if s.flushes[f].own then s.selfRef && s.delivery == Flushing else s.callers > 0
  {
    if s.flushes[f].own {
      assert OwnFlush(s, f);
    } else {
      assert f in Callers(s);
    }
  }

  lemma NextCount(s: State, step: Step)
    requires CountInv(s) && OwnerInv(s)
    ensures CountInv(Next(s, step))
  {
    match step
    case EndFlush(f) =>
      if f in s.flushes {
        CallerCounted(s, f);
        hide OwnerInv, CountInv;
        EndCount(s, f);
      }
    case _ =>
      NotRetainedYet(s);
      hide OwnerInv;
      OtherCount(s, step);
  }

  lemma NotRetainedYet(s: State)
    requires OwnerInv(s)
    ensures s.delivery == BeforeRetain ==> !s.selfRef
  {
    assert forall f :: OwnFlush(s, f) ==> s.delivery == Flushing;
    hide OwnFlush;
  }

  lemma OtherCount(s: State, step: Step)
    requires CountInv(s) && !step.EndFlush? && (s.delivery == BeforeRetain ==> !s.selfRef)
    ensures CountInv(Next(s, step))
  {
    hide Registered, Taken, Called, Unref;
    match step
    case Register(kind) => hide CountInv; RegisterCount(s, kind);
    case BeginFlush => BeginCount(s);
    case CallNext(f) => CallCount(s, f);
    case ReleasePage =>
      if s.pageRefs > Held(s) { UnrefCount(s.(pageRefs := s.pageRefs - 1)); }
    case ReleaseSettler =>
      if s.settlerRef && s.delivery != BeforeRetain { UnrefCount(s.(settlerRef := false)); }
    case Settle(_, _) =>
    case RetainAndSchedule =>
    case RetainPage =>
  }

  lemma BeginCount(s: State)
    requires CountInv(s)
    ensures CountInv(Next(s, BeginFlush))
  {
    hide Moved, Elements;
  }

  lemma CallCount(s: State, f: nat)
    requires CountInv(s)
    ensures CountInv(Called(s, f))
  {
    hide RunList;
  }

  lemma RegisterCount(s: State, kind: Kind)
    requires CountInv(s)
    ensures CountInv(Registered(s, kind))
  {
    hide Moved, Elements;
  }

  /** `CountInv`, but for the reference that is about to be dropped. */
  ghost predicate OneTooMany(s: State) {
    && s.refCount == 1 + s.pageRefs + (if s.settlerRef then 1 else 0) + (if s.selfRef then 1 else 0)
    && CountInv(s.(refCount := s.refCount - 1, freed := s.refCount == 1))
    && !s.freed
  }

  lemma UnrefCount(s: State)
    requires OneTooMany(s)
    ensures CountInv(Unref(s))
  {
    hide Moved, Elements, Contents;
  }

  lemma EndCount(s: State, f: nat)
    requires CountInv(s) && f in s.flushes
    requires if s.flushes[f].own then s.selfRef && s.delivery == Flushing else s.callers > 0
    ensures CountInv(Ended(s, f))
  {
    hide RunList, Moved, Elements, Contents;
    if s.flushes[f].next >= |RunList(s.core.result, s.flushes[f].taken)| {
      var e := Emptying(s, f);
      if s.flushes[f].own {
        UnrefCount(e.(selfRef := false));
        hide Unref, CountInv;
      }
    }
  }

  /** Flushes, ids and owners as in `s`. */
  lemma SameOwners(s: State, t: State)
    requires OwnerInv(s)
    requires forall f :: f in s.flushes <==> f in t.flushes
    requires forall f :: f in s.flushes ==> s.flushes[f].own == t.flushes[f].own
    requires t.nextFlush == s.nextFlush && t.callers == s.callers
    requires (t.selfRef == s.selfRef && t.delivery == s.delivery)
      || (t.delivery == Scheduled && t.selfRef && s.delivery == BeforeRetain)
      || (t.delivery == BeforeRetain && t.selfRef == s.selfRef && s.delivery == NotCalled)
    ensures OwnerInv(t)
  {
    assert Callers(t) == Callers(s);
    assert forall f :: OwnFlush(t, f) <==> OwnFlush(s, f);
  }

  /** The flush that `deliver` scheduled begins. */
  lemma OwnBegins(s: State, t: State)
    requires OwnerInv(s) && s.delivery == Scheduled && t.delivery == Flushing && t.selfRef
    requires t.nextFlush == s.nextFlush + 1 && t.callers == s.callers
    requires OneMore(s, t) && t.flushes[s.nextFlush].own
    ensures OwnerInv(t)
  {
    assert Callers(t) == Callers(s);
    hide Callers;
    assert OwnFlush(t, s.nextFlush);
    assert forall f :: !OwnFlush(s, f);
    assert forall f :: OwnFlush(t, f) ==> OwnFlush(s, f) || f == s.nextFlush;
    hide OwnFlush;
  }

  /** The flush of an `invoke` begins. */
  lemma CallerBegins(s: State, t: State)
    requires OwnerInv(s) && t.delivery == s.delivery && t.selfRef == s.selfRef
    requires t.nextFlush == s.nextFlush + 1 && t.callers == s.callers + 1
    requires OneMore(s, t) && !t.flushes[s.nextFlush].own
    ensures OwnerInv(t)
  {
    assert s.nextFlush !in Callers(s) && Callers(t) == Callers(s) + {s.nextFlush};
    hide Callers;
    assert forall f :: OwnFlush(t, f) <==> OwnFlush(s, f);
    hide OwnFlush;
  }

  ghost predicate OneMore(s: State, t: State) {
    && (forall f :: f in t.flushes <==> f in s.flushes || f == s.nextFlush)
    && (forall f :: f in s.flushes && f != s.nextFlush ==> t.flushes[f] == s.flushes[f])
  }

  lemma FewerOwners(s: State, t: State, f: nat)
    requires OwnerInv(s) && f in s.flushes && t.flushes == s.flushes - {f}
    requires t.nextFlush == s.nextFlush && t.delivery == s.delivery
    requires t.callers == if s.flushes[f].own then s.callers else PredOf(s.callers)
    requires t.selfRef == (s.selfRef && !s.flushes[f].own)
    ensures OwnerInv(t)
  {
    assert Callers(t) == if s.flushes[f].own then Callers(s) else Callers(s) - {f};
    if s.flushes[f].own { assert OwnFlush(s, f); } else { assert f in Callers(s); }
    assert forall g :: OwnFlush(t, g) <==> OwnFlush(s, g) && g != f;
  }

  lemma RegisterOwners(s: State, kind: Kind)
    requires OwnerInv(s)
    ensures OwnerInv(Registered(s, kind))
  {
    hide OwnerInv, Moved, Elements, OneMore;
    if s.pageRefs == 0 || s.core.result == Pending {
      SameOwners(s, Registered(s, kind));
    } else {
      RegisterBegins(s, kind);
      CallerBegins(s, Registered(s, kind));
    }
  }

  lemma RegisterBegins(s: State, kind: Kind)
    requires s.pageRefs > 0 && s.core.result != Pending
    ensures var t := Registered(s, kind);
            && OneMore(s, t) && !t.flushes[s.nextFlush].own && t.callers == s.callers + 1
            && t.nextFlush == s.nextFlush + 1 && t.delivery == s.delivery && t.selfRef == s.selfRef
  {
    hide Moved, Elements;
  }

  lemma EndOwners(s: State, f: nat)
    requires OwnerInv(s)
    ensures OwnerInv(Ended(s, f))
  {
    hide OwnerInv, Moved, Elements, Contents, RunList;
    if f in s.flushes && Ended(s, f).flushes == s.flushes - {f} {
      FewerOwners(s, Ended(s, f), f);
    }
  }

  lemma OtherOwners(s: State, step: Step)
    requires OwnerInv(s) && !step.Register? && !step.BeginFlush? && !step.EndFlush?
    ensures OwnerInv(Next(s, step))
  {
    hide OwnerInv, Called, Unref;
    if step.CallNext? { CallOwners(s, step.f); }
    if step.ReleasePage? && s.pageRefs > Held(s) { UnrefOwners(s, s.(pageRefs := s.pageRefs - 1)); }
    if step.ReleaseSettler? && s.settlerRef { UnrefOwners(s, s.(settlerRef := false)); }
    if !step.CallNext? && !step.ReleasePage? && !step.ReleaseSettler? { SameOwners(s, Next(s, step)); }
  }

  lemma CallOwners(s: State, f: nat)
    requires OwnerInv(s)
    ensures OwnerInv(Called(s, f))
  {
    hide OwnerInv, RunList;
    SameOwners(s, Called(s, f));
  }

  lemma UnrefOwners(s: State, t: State)
    requires OwnerInv(s) && t.flushes == s.flushes && t.nextFlush == s.nextFlush && t.callers == s.callers
    requires t.selfRef == s.selfRef && t.delivery == s.delivery
    ensures OwnerInv(Unref(t))
  {
    hide OwnerInv, Moved, Elements, Contents;
    SameOwners(s, Unref(t));
  }

  lemma NextOwners(s: State, step: Step)
    requires OwnerInv(s)
    ensures OwnerInv(Next(s, step))
  {
    match step
    case Register(kind) => RegisterOwners(s, kind);
    case BeginFlush =>
      if s.delivery == Scheduled {
        assert s.selfRef;
        hide OwnerInv, Moved, Elements;
        OwnBegins(s, Next(s, step));
      }
    case EndFlush(f) => EndOwners(s, f);
    case _ => OtherOwners(s, step);
  }

  // ---- Each callback reference is in one place.

  /** Everything at `place`, and nothing else, has moved to `to`. */
  ghost predicate Relocated(regs: seq<Registration>, moved: seq<Registration>, place: Place, to: Place) {
    && |moved| == |regs|
    && forall r :: 0 <= r < |regs| ==> moved[r] == if regs[r].place == place then regs[r].(place := to) else regs[r]
  }

  lemma FiledElements(regs: seq<Registration>, l: Lists, place: Place)
    requires Filed(regs, l, place)
    ensures forall r: nat :: r in Elements(l) <==> r < |regs| && regs[r].place == place
  {
    hide Increasing, Elements;
    forall r: nat | r < |regs| && regs[r].place == place ensures r in Elements(l) {
      match regs[r].kind
      case Done => assert regs[r] == Registration(Done, place);
      case Fail => assert regs[r] == Registration(Fail, place);
      case Always => assert regs[r] == Registration(Always, place);
    }
  }

  lemma MovedRelocates(regs: seq<Registration>, l: Lists, place: Place, to: Place)
    requires Filed(regs, l, place)
    ensures Relocated(regs, Moved(regs, Elements(l), to), place, to)
  {
    FiledElements(regs, l, place);
    hide Filed, Elements;
  }

  lemma RelocatedHere(regs: seq<Registration>, moved: seq<Registration>, place: Place, to: Place, l: Lists)
    requires Relocated(regs, moved, place, to) && Filed(regs, l, place)
    requires forall r :: 0 <= r < |regs| ==> regs[r].place != to
    ensures Filed(moved, l, to)
  {
    hide Increasing;
  }

  lemma RelocatedElsewhere(regs: seq<Registration>, moved: seq<Registration>, place: Place, to: Place, l: Lists,
                           at: Place)
    requires Relocated(regs, moved, place, to) && Filed(regs, l, at) && at != place && at != to
    ensures Filed(moved, l, at)
  {
    hide Increasing;
  }

  lemma RelocatedAway(regs: seq<Registration>, moved: seq<Registration>, place: Place, to: Place)
    requires Relocated(regs, moved, place, to) && to != place
    ensures Filed(moved, NO_CALLBACKS, place)
  {
  }

  lemma AddOne(regs: seq<Registration>, rs: seq<nat>, reg: Registration)
    requires FiledOne(regs, rs, reg)
    ensures FiledOne(regs + [reg], rs + [|regs|], reg)
  {
    assert forall i :: 0 <= i < |rs| ==> rs[i] in rs;
    assert forall r: nat :: r in rs + [|regs|] <==> r in rs || r == |regs|;
  }

  lemma SkipOne(regs: seq<Registration>, rs: seq<nat>, reg: Registration, other: Registration)
    requires FiledOne(regs, rs, reg) && other != reg
    ensures FiledOne(regs + [other], rs, reg)
  {
    hide Increasing;
  }

  lemma AddFiled(regs: seq<Registration>, l: Lists, kind: Kind)
    requires Filed(regs, l, Listed)
    ensures Filed(regs + [Registration(kind, Listed)], l.Add(kind, |regs|), Listed)
  {
    hide FiledOne;
    var reg := Registration(kind, Listed);
    AddOne(regs, match kind case Done => l.onSuccess case Fail => l.onFailure case Always => l.onComplete, reg);
    if kind != Done { SkipOne(regs, l.onSuccess, Registration(Done, Listed), reg); }
    if kind != Fail { SkipOne(regs, l.onFailure, Registration(Fail, Listed), reg); }
    if kind != Always { SkipOne(regs, l.onComplete, Registration(Always, Listed), reg); }
  }

  lemma AppendFiled(regs: seq<Registration>, l: Lists, place: Place, kind: Kind)
    requires Filed(regs, l, place) && place != Listed
    ensures Filed(regs + [Registration(kind, Listed)], l, place)
  {
    hide FiledOne;
    SkipOne(regs, l.onSuccess, Registration(Done, place), Registration(kind, Listed));
    SkipOne(regs, l.onFailure, Registration(Fail, place), Registration(kind, Listed));
    SkipOne(regs, l.onComplete, Registration(Always, place), Registration(kind, Listed));
  }

  ghost function Added(s: State, kind: Kind): State {
    s.(core := s.core.(lists := s.core.lists.Add(kind, |s.regs|)), regs := s.regs + [Registration(kind, Listed)])
  }

  lemma AddedPlace(s: State, kind: Kind)
    requires PlaceInv(s) && !s.freed
    ensures PlaceInv(Added(s, kind))
  {
    AddFiled(s.regs, s.core.lists, kind);
    var t := Added(s, kind);
    forall f | f in t.flushes ensures Filed(t.regs, t.flushes[f].taken, InFlush(f)) {
      AppendFiled(s.regs, s.flushes[f].taken, InFlush(f), kind);
    }
    hide Filed;
  }

  /** The flushes of `t` file what they took, after everything at `place` moved to `to`. */
  lemma OthersFiled(s: State, t: State, place: Place, to: Place)
    requires PlaceInv(s) && Relocated(s.regs, t.regs, place, to) && !to.Listed?
    requires forall f :: f in t.flushes && InFlush(f) != to ==>
               f in s.flushes && t.flushes[f].taken == s.flushes[f].taken && InFlush(f) != place
    ensures forall f :: f in t.flushes && InFlush(f) != to ==> Filed(t.regs, t.flushes[f].taken, InFlush(f))
  {
    hide Filed, Relocated;
    forall f | f in t.flushes && InFlush(f) != to ensures Filed(t.regs, t.flushes[f].taken, InFlush(f)) {
      RelocatedElsewhere(s.regs, t.regs, place, to, s.flushes[f].taken, InFlush(f));
    }
  }

  lemma TakenPlace(s: State, own: bool)
    requires PlaceInv(s) && s.core.result != Pending && forall f :: f in s.flushes ==> f < s.nextFlush
    ensures PlaceInv(Taken(s, own))
  {
    hide Filed;
    var t, l, to := Taken(s, own), s.core.lists, InFlush(s.nextFlush);
    MovedRelocates(s.regs, l, Listed, to);
    hide Moved, Elements;
    RelocatedHere(s.regs, t.regs, Listed, to, l);
    RelocatedAway(s.regs, t.regs, Listed, to);
    OthersFiled(s, t, Listed, to);
  }

  /** The three arrays together: no element twice, and exactly their elements. */
  lemma ContentsDistinct(regs: seq<Registration>, l: Lists, place: Place)
    requires Filed(regs, l, place)
    ensures Distinct(Contents(l))
    ensures forall r: nat :: r in Contents(l) <==> r in Elements(l)
  {
    assert forall r: nat :: !(r in l.onSuccess && r in l.onFailure);
    assert forall r: nat :: !(r in l.onSuccess + l.onFailure && r in l.onComplete);
    hide Filed;
    DistinctConcat(l.onSuccess, l.onFailure);
    DistinctConcat(l.onSuccess + l.onFailure, l.onComplete);
  }

  ghost predicate Distinct(rs: seq<nat>) {
    forall i, j :: 0 <= i < j < |rs| ==> rs[i] != rs[j]
  }

  lemma DistinctConcat(a: seq<nat>, b: seq<nat>)
    requires Distinct(a) && Distinct(b) && forall r: nat :: !(r in a && r in b)
    ensures Distinct(a + b)
  {
    forall i, j | 0 <= i < j < |a + b| ensures (a + b)[i] != (a + b)[j] {
      if i < |a| <= j { assert a[i] in a && b[j - |a|] in b; }
    }
  }

  /** Releasing everything at `place`. */
  lemma ReleasedMore(s: State, l: Lists, place: Place, t: State)
    requires PlaceInv(s) && Filed(s.regs, l, place) && place != Released
    requires t.regs == Moved(s.regs, Elements(l), Released) && t.released == s.released + Contents(l)
    ensures forall r: nat :: r in t.released <==> r < |t.regs| && t.regs[r].place == Released
    ensures Distinct(t.released)
  {
    FiledElements(s.regs, l, place);
    ContentsDistinct(s.regs, l, place);
    hide Filed;
    assert forall r: nat :: r in Contents(l) ==> r !in s.released;
    DistinctConcat(s.released, Contents(l));
  }

  /** The flush's arrays are released, whoever ran it. */
  ghost function Emptying(s: State, f: nat): State
    requires f in s.flushes
  {
    s.(flushes := s.flushes - {f}, released := s.released + Contents(s.flushes[f].taken),
       regs := Moved(s.regs, Elements(s.flushes[f].taken), Released))
  }

  lemma EmptyingPlace(s: State, f: nat)
    requires PlaceInv(s) && f in s.flushes && s.core.result != Pending
    ensures PlaceInv(Emptying(s, f))
  {
    hide Filed;
    var t, l := Emptying(s, f), s.flushes[f].taken;
    ReleasedMore(s, l, InFlush(f), t);
    MovedRelocates(s.regs, l, InFlush(f), Released);
    hide Moved, Elements, Contents;
    RelocatedElsewhere(s.regs, t.regs, InFlush(f), Released, s.core.lists, Listed);
    OthersFiled(s, t, InFlush(f), Released);
  }

  lemma FreePlace(s: State)
    requires PlaceInv(s) && s.refCount <= 1
    ensures PlaceInv(Unref(s))
  {
    hide Filed;
    var t, l := Unref(s), s.core.lists;
    ReleasedMore(s, l, Listed, t);
    MovedRelocates(s.regs, l, Listed, Released);
    hide Moved, Elements, Contents;
    RelocatedAway(s.regs, t.regs, Listed, Released);
    OthersFiled(s, t, Listed, Released);
  }

  /** Nothing `PlaceInv` speaks of has changed. */
  ghost predicate SamePlaces(s: State, t: State) {
    && t.regs == s.regs && t.core.lists == s.core.lists && t.released == s.released && t.freed == s.freed
    && (s.core.result != Pending ==> t.core.result != Pending)
    && (forall f :: f in t.flushes <==> f in s.flushes)
    && (forall f :: f in t.flushes ==> t.flushes[f].taken == s.flushes[f].taken)
  }

  lemma SamePlacesInv(s: State, t: State)
    requires PlaceInv(s) && SamePlaces(s, t)
    ensures PlaceInv(t)
  {
    hide Filed;
  }

  lemma UnrefPlace(s: State, t: State)
    requires PlaceInv(s) && SamePlaces(s, t)
    ensures PlaceInv(Unref(t))
  {
    SamePlacesInv(s, t);
    hide PlaceInv;
    if t.refCount > 1 { SamePlacesInv(t, Unref(t)); } else { FreePlace(t); }
  }

  lemma RegisterPlace(s: State, kind: Kind)
    requires PlaceInv(s) && (s.freed ==> s.pageRefs == 0) && forall f :: f in s.flushes ==> f < s.nextFlush
    ensures PlaceInv(Registered(s, kind))
  {
    hide PlaceInv, Moved, Elements;
    var t := Registered(s, kind);
    if s.pageRefs > 0 {
      AddedPlace(s, kind);
      if s.core.result == Pending {
        SamePlacesInv(Added(s, kind), t);
      } else {
        TakenPlace(Added(s, kind), false);
        SamePlacesInv(Taken(Added(s, kind), false), t);
      }
    }
  }

  lemma EndPlace(s: State, f: nat)
    requires PlaceInv(s) && (f in s.flushes ==> s.core.result != Pending)
    ensures PlaceInv(Ended(s, f))
  {
    hide PlaceInv, Moved, Elements, Contents, RunList, Unref;
    if f in s.flushes && s.flushes[f].next >= |RunList(s.core.result, s.flushes[f].taken)| {
      EmptyingPlace(s, f);
      var e := Emptying(s, f);
      if s.flushes[f].own { UnrefPlace(e, e.(selfRef := false)); } else { SamePlacesInv(e, Ended(s, f)); }
    }
  }

  lemma CallPlace(s: State, f: nat)
    requires PlaceInv(s)
    ensures PlaceInv(Called(s, f))
  {
    hide PlaceInv, RunList;
    SamePlacesInv(s, Called(s, f));
  }

  lemma PlainPlace(s: State, step: Step)
    requires PlaceInv(s) && (step.Settle? || step.RetainAndSchedule? || step.RetainPage?)
    ensures PlaceInv(Next(s, step))
  {
    hide PlaceInv;
    SamePlacesInv(s, Next(s, step));
  }

  lemma ReleasePlace(s: State, step: Step)
    requires PlaceInv(s) && (step.ReleasePage? || step.ReleaseSettler?)
    ensures PlaceInv(Next(s, step))
  {
    hide PlaceInv, Unref;
    if step.ReleasePage? {
      if s.pageRefs > Held(s) { UnrefPlace(s, s.(pageRefs := s.pageRefs - 1)); }
    } else if s.settlerRef && s.delivery != BeforeRetain {
      UnrefPlace(s, s.(settlerRef := false));
    }
  }

  lemma BeginPlace(s: State)
    requires CountInv(s) && PlaceInv(s) && forall f :: f in s.flushes ==> f < s.nextFlush
    ensures PlaceInv(Next(s, BeginFlush))
  {
    hide PlaceInv, Taken;
    if s.delivery == Scheduled {
      TakenPlace(s, true);
      hide CountInv;
      SamePlacesInv(Taken(s, true), Next(s, BeginFlush));
    }
  }

  lemma NextPlace(s: State, step: Step)
    requires CountInv(s) && OwnerInv(s) && PlaceInv(s)
    ensures PlaceInv(Next(s, step))
  {
    assert forall f :: f in s.flushes ==> f < s.nextFlush && s.core.result != Pending;
    assert s.freed ==> s.pageRefs == 0;
    hide CountInv, OwnerInv, PlaceInv, Registered, Called, Ended, Unref, Taken;
    match step
    case Register(kind) => RegisterPlace(s, kind);
    case BeginFlush => BeginPlace(s);
    case CallNext(f) => CallPlace(s, f);
    case EndFlush(f) => EndPlace(s, f);
    case ReleasePage => ReleasePlace(s, step);
    case ReleaseSettler => ReleasePlace(s, step);
    case _ => PlainPlace(s, step);
  }

  // ---- Each callback is called when its turn comes.

  /** Nothing `CallInv` speaks of has changed but for registrations whose turn has not come. */
  ghost predicate SameCalls(s: State, t: State) {
    && t.invoked == s.invoked && t.core.args == s.core.args
    && (forall r: nat :: Due(t, r) <==> Due(s, r))
    && (forall f :: f in t.flushes ==> t.flushes[f].next <= |RunList(t.core.result, t.flushes[f].taken)|)
  }

  lemma SameCallsInv(s: State, t: State)
    requires CallInv(s) && SameCalls(s, t)
    ensures CallInv(t)
  {
    hide Due;
    assert forall r: nat :: WasInvoked(t, r) <==> WasInvoked(s, r);
  }

  /** References aside, nothing has changed. */
  lemma RefsOnly(s: State, t: State)
    requires CallInv(s) && t.flushes == s.flushes && t.regs == s.regs && t.invoked == s.invoked
    requires t.core.result == s.core.result && t.core.args == s.core.args
    ensures CallInv(t)
  {
    assert forall r: nat :: Due(t, r) <==> Due(s, r);
    hide Due;
    SameCallsInv(s, t);
  }

  lemma AddedCalls(s: State, kind: Kind)
    requires CallInv(s)
    ensures CallInv(Added(s, kind))
  {
    var t := Added(s, kind);
    hide Passed;
    assert forall r: nat :: Due(t, r) <==> Due(s, r);
    hide Due;
    SameCallsInv(s, t);
  }

  lemma TakenCalls(s: State, own: bool)
    requires CallInv(s) && PlaceInv(s) && s.core.result != Pending && forall f :: f in s.flushes ==> f < s.nextFlush
    ensures CallInv(Taken(s, own))
  {
    var t, to := Taken(s, own), InFlush(s.nextFlush);
    MovedRelocates(s.regs, s.core.lists, Listed, to);
    hide Moved, Elements, Filed;
    assert forall r: nat :: !Passed(t.core.result, t.flushes[s.nextFlush], r);
    hide Passed;
    assert forall r: nat :: Due(t, r) <==> Due(s, r);
    hide Due;
    SameCallsInv(s, t);
  }

  lemma RegisterCalls(s: State, kind: Kind)
    requires CallInv(s) && PlaceInv(s) && (s.freed ==> s.pageRefs == 0)
    requires forall f :: f in s.flushes ==> f < s.nextFlush
    ensures CallInv(Registered(s, kind))
  {
    hide CallInv, PlaceInv, Moved, Elements;
    if s.pageRefs > 0 {
      AddedPlace(s, kind);
      AddedCalls(s, kind);
      if s.core.result == Pending {
        RefsOnly(Added(s, kind), Registered(s, kind));
      } else {
        TakenCalls(Added(s, kind), false);
        RefsOnly(Taken(Added(s, kind), false), Registered(s, kind));
      }
    }
  }

  /** A flush calls no callback twice, and only those of the right kind. */
  lemma RunListFiled(regs: seq<Registration>, taken: Lists, place: Place, result: Verdict)
    requires Filed(regs, taken, place) && result != Pending
    ensures Distinct(RunList(result, taken))
    ensures forall r: nat :: r in RunList(result, taken) <==>
              r < |regs| && regs[r].place == place && Matches(result, regs[r].kind)
  {
    forall r: nat | r < |regs| && regs[r].place == place
      ensures regs[r] == Registration(Done, place) || regs[r] == Registration(Fail, place)
              || regs[r] == Registration(Always, place)
    {
      match regs[r].kind
      case Done =>
      case Fail =>
      case Always =>
    }
    assert forall r: nat :: !(r in taken.onSuccess && r in taken.onComplete);
    assert forall r: nat :: !(r in taken.onFailure && r in taken.onComplete);
    hide Filed;
    DistinctConcat(if result == Success then taken.onSuccess else taken.onFailure, taken.onComplete);
  }

  lemma CalledCalls(s: State, f: nat)
    requires CallInv(s) && PlaceInv(s) && s.core.result != Pending
    ensures CallInv(Called(s, f))
  {
    var t := Called(s, f);
    if f in s.flushes && s.flushes[f].next < |RunList(s.core.result, s.flushes[f].taken)| {
      var runs, n := RunList(s.core.result, s.flushes[f].taken), s.flushes[f].next;
      RunListFiled(s.regs, s.flushes[f].taken, InFlush(f), s.core.result);
      hide PlaceInv, RunList;
      var q := runs[n];
      assert q in runs;
      forall r: nat ensures Due(t, r) <==> Due(s, r) || r == q {
        PassedMore(s.core.result, s.flushes[f], r);
      }
      assert !Due(s, q);
      hide Due;
      LogGrew(s, t, q);
    }
  }

  lemma PassedMore(result: Verdict, flush: Flush, r: nat)
    requires flush.next < |RunList(result, flush.taken)|
    ensures Passed(result, flush.(next := flush.next + 1), r) <==>
              Passed(result, flush, r) || r == RunList(result, flush.taken)[flush.next]
  {
    hide RunList;
    if Passed(result, flush, r) {
      var i :| 0 <= i < flush.next && i < |RunList(result, flush.taken)| && RunList(result, flush.taken)[i] == r;
      assert 0 <= i < flush.next + 1;
    }
  }

  lemma LogGrew(s: State, t: State, q: nat)
    requires CallInv(s) && t.core == s.core && !Due(s, q)
    requires t.invoked == s.invoked + [Invocation(q, s.core.args)]
    requires forall r: nat :: Due(t, r) <==> Due(s, r) || r == q
    requires forall f :: f in t.flushes ==> t.flushes[f].next <= |RunList(t.core.result, t.flushes[f].taken)|
    ensures CallInv(t)
  {
    hide Due;
    assert !WasInvoked(s, q);
    assert t.invoked[|s.invoked|].r == q;
    forall r: nat ensures WasInvoked(t, r) <==> WasInvoked(s, r) || r == q {
      if WasInvoked(s, r) {
        var i :| 0 <= i < |s.invoked| && s.invoked[i].r == r;
        assert t.invoked[i].r == r;
      }
    }
  }

  /** A flush at its end has passed all it had to call. */
  lemma PassedAll(s: State, f: nat, r: nat)
    requires PlaceInv(s) && s.core.result != Pending && f in s.flushes
    requires s.flushes[f].next >= |RunList(s.core.result, s.flushes[f].taken)|
    requires r < |s.regs| && s.regs[r].place == InFlush(f)
    ensures Passed(s.core.result, s.flushes[f], r) <==> Matches(s.core.result, s.regs[r].kind)
  {
    RunListFiled(s.regs, s.flushes[f].taken, InFlush(f), s.core.result);
    hide PlaceInv, RunList;
    var runs := RunList(s.core.result, s.flushes[f].taken);
    if r in runs {
      var i :| 0 <= i < |runs| && runs[i] == r;
      assert 0 <= i < s.flushes[f].next;
    }
  }

  lemma EmptyingCalls(s: State, f: nat)
    requires CallInv(s) && PlaceInv(s) && s.core.result != Pending && f in s.flushes
    requires s.flushes[f].next >= |RunList(s.core.result, s.flushes[f].taken)|
    ensures CallInv(Emptying(s, f))
  {
    var t := Emptying(s, f);
    forall r: nat
      ensures Due(t, r) <==> Due(s, r)
    {
      EmptyingDue(s, f, r);
    }
    hide Due, PlaceInv, Moved, Elements, Contents;
    SameCallsInv(s, t);
  }

  lemma EmptyingDue(s: State, f: nat, r: nat)
    requires PlaceInv(s) && s.core.result != Pending && f in s.flushes
    requires s.flushes[f].next >= |RunList(s.core.result, s.flushes[f].taken)|
    ensures Due(Emptying(s, f), r) <==> Due(s, r)
  {
    MovedRelocates(s.regs, s.flushes[f].taken, InFlush(f), Released);
    if r < |s.regs| && s.regs[r].place == InFlush(f) {
      PassedAll(s, f, r);
    }
    hide PlaceInv, Moved, Elements, Contents, Passed, Filed, RunList, Matches, Due, Relocated;
    DueWithout(s, Emptying(s, f), f, r);
  }

  /** A flush that has passed a callback may release it: its turn has come either way. */
  lemma DueWithout(s: State, t: State, f: nat, r: nat)
    requires f in s.flushes && t.flushes == s.flushes - {f} && t.core.result == s.core.result
    requires Relocated(s.regs, t.regs, InFlush(f), Released)
    requires r < |s.regs| && s.regs[r].place == InFlush(f) && Matches(s.core.result, s.regs[r].kind) ==>
               Passed(s.core.result, s.flushes[f], r)
    ensures Due(t, r) <==> Due(s, r)
  {
    hide Passed, Matches;
  }

  lemma FreeCalls(s: State)
    requires CallInv(s) && PlaceInv(s) && (s.core.result == Pending || s.core.lists == NO_CALLBACKS)
    ensures CallInv(Unref(s))
  {
    hide PlaceInv, CallInv, Unref;
    if s.refCount > 1 || s.core.lists == NO_CALLBACKS {
      UnrefNothing(s);
      RefsOnly(s, Unref(s));
    } else {
      UnrefPending(s);
    }
  }

  /** Letting go of a promise without callbacks leaves the registrations as they are. */
  lemma UnrefNothing(s: State)
    requires s.refCount > 1 || s.core.lists == NO_CALLBACKS
    ensures var t := Unref(s);
            && t.flushes == s.flushes && t.regs == s.regs && t.invoked == s.invoked
            && t.core.result == s.core.result && t.core.args == s.core.args
  {
    if s.refCount <= 1 {
      assert Elements(NO_CALLBACKS) == {};
      assert Moved(s.regs, {}, Released) == s.regs;
    }
  }

  /** While a promise is pending no callback is due, wherever its reference is. */
  lemma UnrefPending(s: State)
    requires CallInv(s) && s.core.result == Pending
    ensures CallInv(Unref(s))
  {
    var t := Unref(s);
    hide Moved, Elements, Contents, Passed, RunList;
    assert forall r: nat :: !Due(t, r) && !Due(s, r);
    hide Due;
    SameCallsInv(s, t);
  }

  lemma EndCalls(s: State, f: nat)
    requires CallInv(s) && PlaceInv(s) && CountInv(s) && OwnerInv(s)
    ensures CallInv(Ended(s, f))
  {
    if f in s.flushes && s.flushes[f].next >= |RunList(s.core.result, s.flushes[f].taken)| {
      CallerCounted(s, f);
      assert s.core.result != Pending && (s.flushes[f].own ==> s.core.lists == NO_CALLBACKS);
      hide CallInv, PlaceInv, CountInv, OwnerInv;
      EmptyingPlace(s, f);
      EmptyingCalls(s, f);
      EndedCalls(s, f);
    }
  }

  lemma EndedCalls(s: State, f: nat)
    requires f in s.flushes && s.flushes[f].next >= |RunList(s.core.result, s.flushes[f].taken)|
    requires PlaceInv(Emptying(s, f)) && CallInv(Emptying(s, f)) && (s.flushes[f].own ==> s.core.lists == NO_CALLBACKS)
    ensures CallInv(Ended(s, f))
  {
    hide CallInv, PlaceInv, Moved, Elements, Contents, RunList, Unref;
    var e := Emptying(s, f);
    if s.flushes[f].own {
      SamePlacesInv(e, e.(selfRef := false));
      RefsOnly(e, e.(selfRef := false));
      FreeCalls(e.(selfRef := false));
    } else {
      RefsOnly(e, Ended(s, f));
    }
  }

  lemma FirstInvoked(s: State)
    ensures s.invoked != [] ==> WasInvoked(s, s.invoked[0].r)
  {
  }

  lemma SettleCalls(s: State, result: Verdict, args: seq<int>)
    requires CallInv(s) && PlaceInv(s) && CountInv(s)
    ensures CallInv(Next(s, Settle(result, args)))
  {
    var t := Next(s, Settle(result, args));
    if s.delivery == NotCalled && s.settlerRef && result != Pending {
      assert forall r: nat :: !Due(s, r);
      FirstInvoked(s);
      assert s.released == [] && s.flushes == map[];
      hide CountInv, Filed;
      assert forall r: nat :: !Due(t, r);
      hide PlaceInv, Due;
      assert forall r: nat :: !WasInvoked(t, r);
    }
  }

  lemma ReleaseCalls(s: State, step: Step)
    requires CallInv(s) && PlaceInv(s) && CountInv(s) && (step.ReleasePage? || step.ReleaseSettler?)
    ensures CallInv(Next(s, step))
  {
    var dropped := if step.ReleasePage? then s.(pageRefs := PredOf(s.pageRefs)) else s.(settlerRef := false);
    hide CallInv, PlaceInv;
    SamePlacesInv(s, dropped);
    RefsOnly(s, dropped);
    if Next(s, step) != s {
      if s.refCount > 1 { RefsOnly(s, Next(s, step)); } else { FreeCalls(dropped); }
    }
  }

  lemma NextCalls(s: State, step: Step)
    requires Inv(s)
    ensures CallInv(Next(s, step))
  {
    assert forall f :: f in s.flushes ==> f < s.nextFlush && s.core.result != Pending;
    assert s.freed ==> s.pageRefs == 0;
    assert s.delivery == Scheduled ==> s.core.result != Pending;
    hide CountInv, OwnerInv, PlaceInv, CallInv, Registered, Called, Ended, Unref, Taken;
    match step
    case Register(kind) => RegisterCalls(s, kind);
    case Settle(result, args) => SettleCalls(s, result, args);
    case BeginFlush =>
      if s.delivery == Scheduled {
        TakenCalls(s, true);
        RefsOnly(Taken(s, true), Next(s, step));
      }
    case CallNext(f) => if f in s.flushes { CalledCalls(s, f); } else { CalledNothing(s, f); }
    case EndFlush(f) => EndCalls(s, f);
    case ReleasePage => ReleaseCalls(s, step);
    case ReleaseSettler => ReleaseCalls(s, step);
    case _ => RefsOnly(s, Next(s, step));
  }

  lemma CalledNothing(s: State, f: nat)
    requires f !in s.flushes
    ensures Called(s, f) == s
  {
  }

  // ---- Every run.

  lemma StartInv()
    ensures Inv(START)
  {
    assert Callers(START) == {};
  }

  lemma {:induction false} RunInv(steps: seq<Step>)
    ensures Inv(Run(steps))
  {
    if steps == [] {
      StartInv();
    } else {
      var s, step := Run(steps[..|steps| - 1]), steps[|steps| - 1];
      RunInv(steps[..|steps| - 1]);
      hide Next, CountInv, OwnerInv, PlaceInv, CallInv;
      NextCount(s, step);
      NextOwners(s, step);
      NextPlace(s, step);
      NextCalls(s, step);
    }
  }
}
