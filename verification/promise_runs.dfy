/** Every interleaving of registering, settling, flushing and releasing, with reference counts. */
module PromiseRuns {
  import opened Promises

  /** Where a registration's callback reference is held. */
  datatype Place = Listed | InFlush(f: nat) | Released

  datatype Registration = Registration(kind: Kind, place: Place)

  /** A flush under way: what it took, how many callbacks it has called, and whether it is the one that
      `deliver` scheduled (otherwise an `invoke` runs it). */
  datatype Flush = Flush(taken: Lists, next: nat, own: bool)

  /** Progress of `deliver`: not called, settled but not yet retained, flush scheduled, flush begun. */
  datatype Delivery = NotCalled | BeforeRetain | Scheduled | Flushing

  /** `refCount` is the promise's reference count; its owners are the page (`pageRefs`), the settling thread
      (`settlerRef`) and the scheduled flush (`selfRef`). `callers` counts the `invoke`s that are flushing;
      they own no reference, but the page that called holds one until they return. `regs`, `invoked` and
      `released` are history, and so are `flushOf`, the flush that made each call, and `batches`, what each flush
      took. */
  datatype State = State(
    core: Core,
    delivery: Delivery,
    flushes: map<nat, Flush>,
    nextFlush: nat,
    refCount: nat,
    pageRefs: nat,
    settlerRef: bool,
    selfRef: bool,
    callers: nat,
    freed: bool,
    regs: seq<Registration>,
    invoked: seq<Invocation>,
    released: seq<nat>,
    flushOf: seq<nat>,
    batches: seq<Lists>)

  /** A promise as `on_invoke` leaves it: one reference for the settler, one for the page. */
  const START := State(
    Core(Pending, [], NO_CALLBACKS), NotCalled, map[], 0, 2, 1, true, false, 0, false, [], [], [], [], [])

  datatype Step =
    | Register(kind: Kind)
    | Settle(result: Verdict, args: seq<int>)
    | RetainAndSchedule
    | BeginFlush
    | CallNext(f: nat)
    | EndFlush(f: nat)
    | RetainPage
    | ReleasePage
    | ReleaseSettler

  /** Marks the registrations in `rs` as moved to `place`. */
  function Moved(regs: seq<Registration>, rs: set<nat>, place: Place): (moved: seq<Registration>)
    ensures |moved| == |regs|
    ensures forall r :: 0 <= r < |regs| ==> moved[r] == if r in rs then regs[r].(place := place) else regs[r]
  {
    seq(|regs|, r requires 0 <= r < |regs| => if r in rs then regs[r].(place := place) else regs[r])
  }

  function Elements(l: Lists): (s: set<nat>)
    ensures forall r :: r in s <==> r in l.onSuccess || r in l.onFailure || r in l.onComplete
  {
    (set r | r in l.onSuccess) + (set r | r in l.onFailure) + (set r | r in l.onComplete)
  }

  /** Unreferencing the three arrays drops one reference per element. */
  function Contents(l: Lists): seq<nat> {
    l.onSuccess + l.onFailure + l.onComplete
  }

  /** Takes the callbacks into a new flush. */
  function Taken(s: State, own: bool): State {
    s.(core := Emptied(s.core),
       flushes := s.flushes[s.nextFlush := Flush(s.core.lists, 0, own)],
       nextFlush := s.nextFlush + 1,
       batches := s.batches + [s.core.lists],
       regs := Moved(s.regs, Elements(s.core.lists), InFlush(s.nextFlush)))
  }

  /** Drops a reference to the promise; the last one deallocates it and releases what its arrays hold. */
  function Unref(s: State): State {
    if s.refCount > 1 then s.(refCount := s.refCount - 1)
    else
      s.(refCount := 0, freed := true, released := s.released + Contents(s.core.lists),
         regs := Moved(s.regs, Elements(s.core.lists), Released),
         core := s.core.(lists := NO_CALLBACKS))
  }

  /** The page gets one more reference. */
  function Retained(s: State): State {
    s.(refCount := s.refCount + 1, pageRefs := s.pageRefs + 1)
  }

  /** `invoke` with a callback: it returns a new reference, at once while pending and else after its flush. */
  function Registered(s: State, kind: Kind): State {
    if s.pageRefs == 0 then s
    else
      var added := s.(core := s.core.(lists := s.core.lists.Add(kind, |s.regs|)),
                      regs := s.regs + [Registration(kind, Listed)]);
      if s.core.result == Pending then Retained(added) else Taken(added, false).(callers := s.callers + 1)
  }

  function Called(s: State, f: nat): State {
    if f !in s.flushes || s.flushes[f].next >= |RunList(s.core.result, s.flushes[f].taken)| then s
    else
      var flush := s.flushes[f];
      s.(invoked := s.invoked + [Invocation(RunList(s.core.result, flush.taken)[flush.next], s.core.args)],
         flushOf := s.flushOf + [f], flushes := s.flushes[f := flush.(next := flush.next + 1)])
  }

  /** The arrays are unreferenced. Then the scheduled flush drops its reference, and an `invoke` returns one. */
  function Ended(s: State, f: nat): State {
    if f !in s.flushes || s.flushes[f].next < |RunList(s.core.result, s.flushes[f].taken)| then s
    else
      var flush := s.flushes[f];
      var t := s.(flushes := s.flushes - {f}, released := s.released + Contents(flush.taken),
                  regs := Moved(s.regs, Elements(flush.taken), Released));
      if flush.own then Unref(t.(selfRef := false)) else Retained(t.(callers := PredOf(t.callers)))
  }

  function PredOf(n: nat): nat {
    if n == 0 then 0 else n - 1
  }

  /** How many references the page cannot let go of: one while it is inside an `invoke`. */
  function Held(s: State): nat {
    if s.callers > 0 then 1 else 0
  }

  /** One step; a step that cannot happen in `s` leaves it as it is. Any number of flushes may be under way,
      so a callback that registers another callback is a `Register` between two `CallNext`s. */
  function Next(s: State, step: Step): State {
    match step
    case Register(kind) => Registered(s, kind)
    case Settle(result, args) =>
      if s.delivery != NotCalled || !s.settlerRef || result == Pending then s
      else s.(core := Settled(s.core, result, args), delivery := BeforeRetain)
    case RetainAndSchedule =>
      if s.delivery != BeforeRetain then s
      else s.(delivery := Scheduled, selfRef := true, refCount := s.refCount + 1)
    case BeginFlush =>
      if s.delivery != Scheduled then s else Taken(s, true).(delivery := Flushing)
    case CallNext(f) => Called(s, f)
    case EndFlush(f) => Ended(s, f)
    case RetainPage => if s.freed then s else Retained(s)
    case ReleasePage => if s.pageRefs <= Held(s) then s else Unref(s.(pageRefs := s.pageRefs - 1))
    case ReleaseSettler =>
      if !s.settlerRef || s.delivery == BeforeRetain then s else Unref(s.(settlerRef := false))
  }

  function Run(steps: seq<Step>): State {
    if steps == [] then START else Next(Run(steps[..|steps| - 1]), steps[|steps| - 1])
  }
}
