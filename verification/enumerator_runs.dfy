/** Every interleaving of requests, workers and deliveries of the process enumerator. */
module EnumeratorRuns {
  import opened ProcessEnumerators

  /** A thread that is enumerating, or has attached its callback with list number `list`. */
  datatype Worker = Running | Ready(list: nat)

  datatype Batch = Batch(requests: seq<Request>, list: nat, next: nat)

  datatype Done = Done(request: Request, list: nat)

  /** `lists` are the enumerations made, in order; `due` says which of them each request should get: the one
      under way or about to be when it was made, or the one already made if that was still to be delivered.
      `completed` is history. */
  datatype State = State(
    pending: seq<Request>,
    contextSet: bool,
    workers: seq<Worker>,
    batches: seq<Batch>,
    lists: seq<Processes>,
    due: seq<nat>,
    completed: seq<Done>)

  const START := State([], false, [], [], [], [], [])

  datatype Step =
    | Ask
    | Enumerate(w: nat, list: Processes)
    | Deliver(w: nat)
    | CompleteNext(b: nat)

  predicate SomeReady(s: State) {
    exists w :: 0 <= w < |s.workers| && s.workers[w].Ready?
  }

  /** One step; a step that cannot happen leaves the state as it is. Requests that a completion makes are the
      `Ask`s between two `CompleteNext`s; deliveries may also be nested. */
  function Next(s: State, step: Step): State {
    match step
    case Ask =>
      s.(pending := s.pending + [|s.due|],
         due := s.due + [if SomeReady(s) && |s.lists| > 0 then |s.lists| - 1 else |s.lists|],
         contextSet := s.contextSet || s.pending == [],
         workers := if s.pending == [] then s.workers + [Running] else s.workers)
    case Enumerate(w, list) =>
      if w >= |s.workers| || s.workers[w].Ready? then s
      else s.(workers := s.workers[w := Ready(|s.lists|)], lists := s.lists + [list])
    case Deliver(w) =>
      if w >= |s.workers| || s.workers[w].Running? then s
      else
        s.(contextSet := false, pending := [], workers := s.workers[..w] + s.workers[w + 1..],
           batches := s.batches + [Batch(s.pending, s.workers[w].list, 0)])
    case CompleteNext(b) =>
      if b >= |s.batches| || s.batches[b].next >= |s.batches[b].requests| then s
      else
        var batch := s.batches[b];
        s.(batches := s.batches[b := batch.(next := batch.next + 1)],
           completed := s.completed + [Done(batch.requests[batch.next], batch.list)])
  }

  function Run(steps: seq<Step>): State {
    if steps == [] then START else Next(Run(steps[..|steps| - 1]), steps[|steps| - 1])
  }

  // ---- A worker exactly while requests are pending.

  predicate WorkerInv(s: State) {
    && |s.workers| == (if s.pending == [] then 0 else 1)
    && (s.contextSet <==> s.pending != [])
    && (s.workers != [] && s.workers[0].Ready? ==> s.workers[0].list == |s.lists| - 1)
  }

  lemma NextWorkerInv(s: State, step: Step)
    requires WorkerInv(s)
    ensures WorkerInv(Next(s, step))
  {
  }

  // ---- Every request is in one place.

  function Count(rs: seq<Request>, r: Request): nat {
    if rs == [] then 0 else Count(rs[..|rs| - 1], r) + if rs[|rs| - 1] == r then 1 else 0
  }

  function InBatch(batch: Batch, r: Request): nat {
    if batch.next <= |batch.requests| then Count(batch.requests[batch.next..], r) else 0
  }

  function InBatches(bs: seq<Batch>, r: Request): nat {
    if bs == [] then 0 else InBatches(bs[..|bs| - 1], r) + InBatch(bs[|bs| - 1], r)
  }

  function TimesDone(ds: seq<Done>, r: Request): nat {
    if ds == [] then 0 else TimesDone(ds[..|ds| - 1], r) + if ds[|ds| - 1].request == r then 1 else 0
  }

  function Places(s: State, r: Request): nat {
    Count(s.pending, r) + InBatches(s.batches, r) + TimesDone(s.completed, r)
  }

  lemma CountMore(rs: seq<Request>, x: Request, r: Request)
    ensures Count(rs + [x], r) == Count(rs, r) + if x == r then 1 else 0
  {
    assert (rs + [x])[..|rs|] == rs;
  }

  lemma {:induction false} CountFirst(rs: seq<Request>, r: Request)
    requires rs != []
    ensures Count(rs, r) == Count(rs[1..], r) + if rs[0] == r then 1 else 0
  {
    var n := |rs| - 1;
    if n > 0 {
      CountFirst(rs[..n], r);
      assert rs[1..][..n - 1] == rs[..n][1..];
    }
  }

  lemma BatchesMore(bs: seq<Batch>, batch: Batch, r: Request)
    ensures InBatches(bs + [batch], r) == InBatches(bs, r) + InBatch(batch, r)
  {
    assert (bs + [batch])[..|bs|] == bs;
  }

  lemma {:induction false} BatchesUpdate(bs: seq<Batch>, b: nat, batch: Batch, r: Request)
    requires b < |bs|
    ensures InBatches(bs[b := batch], r) + InBatch(bs[b], r) == InBatches(bs, r) + InBatch(batch, r)
  {
    hide InBatch;
    var n := |bs| - 1;
    if b < n {
      BatchesUpdate(bs[..n], b, batch, r);
      assert bs[b := batch][..n] == bs[..n][b := batch];
    } else {
      assert bs[b := batch][..n] == bs[..n];
    }
  }

  lemma DoneMore(ds: seq<Done>, d: Done, r: Request)
    ensures TimesDone(ds + [d], r) == TimesDone(ds, r) + if d.request == r then 1 else 0
  {
    assert (ds + [d])[..|ds|] == ds;
  }

  lemma {:induction false} NextPlaces(s: State, step: Step, r: Request)
    ensures Places(Next(s, step), r) == Places(s, r) + if step.Ask? && r == |s.due| then 1 else 0
  {
    var t := Next(s, step);
    match step
    case Ask => CountMore(s.pending, |s.due|, r);
    case Enumerate(_, _) =>
    case Deliver(w) =>
      if t != s {
        var batch := Batch(s.pending, s.workers[w].list, 0);
        BatchesMore(s.batches, batch, r);
        assert batch.requests[0..] == s.pending;
      }
    case CompleteNext(b) =>
      if t != s {
        var batch := s.batches[b];
        BatchesUpdate(s.batches, b, t.batches[b], r);
        CountFirst(batch.requests[batch.next..], r);
        assert batch.requests[batch.next..][1..] == batch.requests[batch.next + 1..];
        DoneMore(s.completed, Done(batch.requests[batch.next], batch.list), r);
      }
  }

  lemma {:induction false} RunPlaces(steps: seq<Step>, r: Request)
    ensures Places(Run(steps), r) == if r < |Run(steps).due| then 1 else 0
  {
    if steps != [] {
      var s := Run(steps[..|steps| - 1]);
      RunPlaces(steps[..|steps| - 1], r);
      NextPlaces(s, steps[|steps| - 1], r);
      DueGrows(s, steps[|steps| - 1]);
      hide Next, Places;
    }
  }

  lemma DueGrows(s: State, step: Step)
    ensures |Next(s, step).due| == |s.due| + if step.Ask? then 1 else 0
    ensures s.due <= Next(s, step).due
  {
  }

  // ---- Every request gets the list that was due.

  predicate PendingDue(s: State) {
    forall i :: 0 <= i < |s.pending| ==>
      s.pending[i] < |s.due| && s.due[s.pending[i]] == if SomeReady(s) then |s.lists| - 1 else |s.lists|
  }

  predicate BatchDue(s: State, batch: Batch) {
    batch.list < |s.lists| && forall i :: 0 <= i < |batch.requests| ==>
      batch.requests[i] < |s.due| && s.due[batch.requests[i]] == batch.list
  }

  predicate DueInv(s: State) {
    && PendingDue(s)
    && (forall b :: 0 <= b < |s.batches| ==> BatchDue(s, s.batches[b]))
    && (forall i :: 0 <= i < |s.completed| ==>
          s.completed[i].request < |s.due| && s.due[s.completed[i].request] == s.completed[i].list < |s.lists|)
  }

  lemma NextDueInv(s: State, step: Step)
    requires WorkerInv(s) && DueInv(s)
    ensures DueInv(Next(s, step))
  {
    hide DueInv, Next, WorkerInv;
    match step
    case Ask => AskDueInv(s);
    case Enumerate(w, list) => EnumerateDueInv(s, w, list);
    case Deliver(w) => DeliverDueInv(s, w);
    case CompleteNext(b) => CompleteDueInv(s, b);
  }

  lemma AskDueInv(s: State)
    requires WorkerInv(s) && DueInv(s)
    ensures DueInv(Next(s, Ask))
  {
    var t := Next(s, Ask);
    assert SomeReady(s) <==> SomeReady(t) by { if SomeReady(s) { assert t.workers[0].Ready?; } }
    hide SomeReady;
  }

  lemma EnumerateDueInv(s: State, w: nat, list: Processes)
    requires WorkerInv(s) && DueInv(s)
    ensures DueInv(Next(s, Enumerate(w, list)))
  {
    if Next(s, Enumerate(w, list)) != s {
      assert Next(s, Enumerate(w, list)).workers[w].Ready?;
    }
  }

  lemma DeliverDueInv(s: State, w: nat)
    requires WorkerInv(s) && DueInv(s)
    ensures DueInv(Next(s, Deliver(w)))
  {
    if Next(s, Deliver(w)) != s {
      assert s.workers[w].Ready? && SomeReady(s) && s.workers[w].list == |s.lists| - 1;
      assert BatchDue(s, Batch(s.pending, s.workers[w].list, 0));
      hide SomeReady;
    }
  }

  lemma CompleteDueInv(s: State, b: nat)
    requires DueInv(s)
    ensures DueInv(Next(s, CompleteNext(b)))
  {
    var t := Next(s, CompleteNext(b));
    assert SomeReady(s) <==> SomeReady(t);
    hide SomeReady;
    if t != s {
      assert BatchDue(s, s.batches[b]);
      assert BatchDue(t, t.batches[b]);
    }
  }

  lemma {:induction false} RunInv(steps: seq<Step>)
    ensures WorkerInv(Run(steps)) && DueInv(Run(steps))
  {
    if steps != [] {
      RunInv(steps[..|steps| - 1]);
      NextWorkerInv(Run(steps[..|steps| - 1]), steps[|steps| - 1]);
      NextDueInv(Run(steps[..|steps| - 1]), steps[|steps| - 1]);
    } else {
      assert !SomeReady(START);
    }
  }

  // ---- What holds in every run.

  /** Never two workers, and one exactly while requests are pending; the context its callback is attached to
      is set as long. */
  lemma {:induction false} OneWorkerWhilePending(steps: seq<Step>)
    ensures var s := Run(steps);
            |s.workers| <= 1 && (s.workers != [] <==> s.pending != []) && (s.contextSet <==> s.pending != [])
  {
    RunInv(steps);
  }

  lemma CompletedAtMostOnce(steps: seq<Step>, r: Request)
    ensures TimesDone(Run(steps).completed, r) <= 1
    ensures TimesDone(Run(steps).completed, r) == 1 ==> r < |Run(steps).due|
  {
    RunPlaces(steps, r);
  }

  /** When no worker is out and every batch has been gone through, each request made has completed once. */
  lemma DrainedMeansCompleted(steps: seq<Step>, r: Request)
    requires var s := Run(steps);
             s.workers == [] && forall b :: 0 <= b < |s.batches| ==> s.batches[b].next >= |s.batches[b].requests|
    ensures TimesDone(Run(steps).completed, r) == if r < |Run(steps).due| then 1 else 0
  {
    RunPlaces(steps, r);
    RunInv(steps);
    NothingLeft(Run(steps).batches, r);
  }

  lemma {:induction false} NothingLeft(bs: seq<Batch>, r: Request)
    requires forall b :: 0 <= b < |bs| ==> bs[b].next >= |bs[b].requests|
    ensures InBatches(bs, r) == 0
  {
    if bs != [] { NothingLeft(bs[..|bs| - 1], r); }
  }

  /** A completed request got the list that was due when it was made. */
  lemma GetsWhatWasDue(steps: seq<Step>, i: nat)
    requires i < |Run(steps).completed|
    ensures var s := Run(steps); var d := s.completed[i];
            d.request < |s.due| && s.due[d.request] == d.list < |s.lists|
  {
    RunInv(steps);
  }

  lemma RunMore(steps: seq<Step>, step: Step)
    ensures Run(steps + [step]) == Next(Run(steps), step)
  {
    assert (steps + [step])[..|steps|] == steps;
  }

  lemma {:induction false} DueStays(steps: seq<Step>, later: seq<Step>)
    ensures Run(steps).due <= Run(steps + later).due
  {
    hide Run, Next;
    if later == [] {
      assert steps + later == steps;
    } else {
      var n := |later| - 1;
      DueStays(steps, later[..n]);
      RunMore(steps + later[..n], later[n]);
      DueGrows(Run(steps + later[..n]), later[n]);
      assert steps + later == steps + later[..n] + [later[n]];
    }
  }

  lemma DueOfPending(s: State, r: Request)
    requires WorkerInv(s) && PendingDue(s) && r in s.pending
    ensures s.workers != [] && r < |s.due|
    ensures s.due[r] == match s.workers[0] case Ready(list) => list case Running => |s.lists|
  {
    assert SomeReady(s) <==> s.workers[0].Ready?;
    hide SomeReady;
    var i :| 0 <= i < |s.pending| && s.pending[i] == r;
  }

  /** Requests that are pending together are served together: whatever happens later, each can only complete
      with the list that the worker has ready or, if it is still running, with the next one made. */
  lemma {:induction false} ServedTogether(steps: seq<Step>, later: seq<Step>, r: Request, i: nat)
    requires r in Run(steps).pending
    requires i < |Run(steps + later).completed| && Run(steps + later).completed[i].request == r
    ensures var s := Run(steps);
            && s.workers != []
            && Run(steps + later).completed[i].list
               == match s.workers[0] case Ready(list) => list case Running => |s.lists|
  {
    RunInv(steps);
    DueStays(steps, later);
    GetsWhatWasDue(steps + later, i);
    hide Run;
    assert PendingDue(Run(steps));
    hide DueInv, PendingDue;
    DueOfPending(Run(steps), r);
  }

  /** The lists are those that the workers made, in the order in which they made them. */
  lemma {:induction false} ListWasEnumerated(steps: seq<Step>, n: nat) returns (k: nat)
    requires n < |Run(steps).lists|
    ensures k < |steps| && steps[k].Enumerate? && |Run(steps[..k]).lists| == n
    ensures steps[k].list == Run(steps).lists[n]
  {
    k := |steps| - 1;
    var before := steps[..k];
    NextLists(Run(before), steps[k]);
    hide Next;
    if n < |Run(before).lists| {
      k := ListWasEnumerated(before, n);
      assert before[..k] == steps[..k];
    }
  }

  lemma NextLists(s: State, step: Step)
    ensures Next(s, step).lists
         == if step.Enumerate? && step.w < |s.workers| && s.workers[step.w].Running? then s.lists + [step.list]
            else s.lists
  {
    hide SomeReady;
  }

  /** What is due is fixed when a request is made. */
  lemma {:induction false} DueFixed(steps: seq<Step>, later: seq<Step>)
    ensures var s := Run(steps); var t := Run(steps + [Ask] + later);
            && |s.due| < |t.due|
            && (t.due[|s.due|] >= |s.lists| <==> !(s.workers != [] && s.workers[0].Ready?))
            && |s.lists| - 1 <= t.due[|s.due|] <= |s.lists|
  {
    hide Run, Next;
    var s, asked := Run(steps), steps + [Ask];
    if later == [] {
      RunMore(steps, Ask);
      RunInv(steps);
      hide DueInv;
      DueWhenAsked(s);
      assert asked + later == asked;
    } else {
      var n := |later| - 1;
      DueFixed(steps, later[..n]);
      RunMore(asked + later[..n], later[n]);
      DueGrows(Run(asked + later[..n]), later[n]);
      assert asked + later == asked + later[..n] + [later[n]];
    }
  }

  lemma DueWhenAsked(s: State)
    requires WorkerInv(s)
    ensures var due := Next(s, Ask).due;
            && |due| == |s.due| + 1 && |s.lists| - 1 <= due[|s.due|] <= |s.lists|
            && (due[|s.due|] >= |s.lists| <==> !(s.workers != [] && s.workers[0].Ready?))
  {
    assert SomeReady(s) <==> s.workers != [] && s.workers[0].Ready?;
  }

  /** The list that a request completes with is no older than the request exactly if no list was waiting for
      its delivery when the request was made; otherwise it is the one that was waiting. */
  lemma {:induction false} FreshIff(steps: seq<Step>, later: seq<Step>, i: nat)
    requires i < |Run(steps + [Ask] + later).completed|
    requires Run(steps + [Ask] + later).completed[i].request == |Run(steps).due|
    ensures var s, got := Run(steps), Run(steps + [Ask] + later).completed[i].list;
            && (got >= |s.lists| <==> !(s.workers != [] && s.workers[0].Ready?))
            && (got < |s.lists| ==> s.workers[0] == Ready(got))
  {
    RunInv(steps);
    hide Run, DueInv;
    DueFixed(steps, later);
    GetsWhatWasDue(steps + [Ask] + later, i);
  }

  /** So a request may complete with a list made before it was: the second of two, if it is made between the
      enumeration and its delivery. */
  lemma ListOlderThanRequest(list: Processes)
    ensures var first := [Ask, Enumerate(0, list)];
            && Run(first).lists == [list] && Run(first).due == [0]
            && Run(first + [Ask] + [Deliver(0)] + [CompleteNext(0)] + [CompleteNext(0)]).completed
               == [Done(0, 0), Done(1, 0)]
  {
    FirstListReady(list);
    hide Run;
    SecondIsDelivered([Ask, Enumerate(0, list)], list);
  }

  lemma FirstListReady(list: Processes)
    ensures Run([Ask, Enumerate(0, list)]) == State([0], true, [Ready(0)], [], [list], [0], [])
  {
    var s1 := State([0], true, [Running], [], [], [0], []);
    assert !SomeReady(START) && Run([]) == START;
    StepTo([], Ask, START, s1);
    hide Run;
    assert [] + [Ask] == [Ask];
    StepTo([Ask], Enumerate(0, list), s1, State([0], true, [Ready(0)], [], [list], [0], []));
    assert [Ask] + [Enumerate(0, list)] == [Ask, Enumerate(0, list)];
  }

  lemma SecondIsDelivered(steps: seq<Step>, list: Processes)
    requires Run(steps) == State([0], true, [Ready(0)], [], [list], [0], [])
    ensures Run(steps + [Ask] + [Deliver(0)] + [CompleteNext(0)] + [CompleteNext(0)]).completed
         == [Done(0, 0), Done(1, 0)]
  {
    hide Run;
    var s2 := State([0], true, [Ready(0)], [], [list], [0], []);
    var s3 := State([0, 1], true, [Ready(0)], [], [list], [0, 0], []);
    var s4 := State([], false, [], [Batch([0, 1], 0, 0)], [list], [0, 0], []);
    assert s2.workers[0].Ready?;
    StepTo(steps, Ask, s2, s3);
    hide SomeReady;
    assert s3.workers[..0] + s3.workers[1..] == [];
    StepTo(steps + [Ask], Deliver(0), s3, s4);
    BatchOfTwo(steps + [Ask] + [Deliver(0)], s4);
  }

  lemma BatchOfTwo(steps: seq<Step>, s: State)
    requires Run(steps) == s && s.batches == [Batch([0, 1], 0, 0)] && s.completed == []
    ensures Run(steps + [CompleteNext(0)] + [CompleteNext(0)]).completed == [Done(0, 0), Done(1, 0)]
  {
    hide Run, SomeReady;
    var t := s.(batches := [Batch([0, 1], 0, 1)], completed := [Done(0, 0)]);
    StepTo(steps, CompleteNext(0), s, t);
    var u := s.(batches := [Batch([0, 1], 0, 2)], completed := [Done(0, 0), Done(1, 0)]);
    StepTo(steps + [CompleteNext(0)], CompleteNext(0), t, u);
  }

  lemma StepTo(steps: seq<Step>, step: Step, s: State, t: State)
    requires Run(steps) == s && Next(s, step) == t
    ensures Run(steps + [step]) == t
  {
    RunMore(steps, step);
    hide Run, Next;
  }
}
