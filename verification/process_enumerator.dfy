/** The process enumerator: requests made while an enumeration is under way share its result. */
module ProcessEnumerators {

  /** The source's `HostProcessInfo[]`, and a request, by identity. */
  type Processes = int
  type Request = nat

  datatype Completion = Completion(request: Request, result: Processes)

  /** `contextSet` says whether `current_main_context` is set; `workers` counts the threads started. */
  datatype Core = Core(pending: seq<Request>, contextSet: bool, workers: nat, nextRequest: Request)

  function Asked(c: Core): Core {
    c.(pending := c.pending + [c.nextRequest], nextRequest := c.nextRequest + 1,
       contextSet := c.contextSet || c.pending == [], workers := if c.pending == [] then c.workers + 1 else c.workers)
  }

  function AskedTimes(c: Core, n: nat): Core {
    if n == 0 then c else Asked(AskedTimes(c, n - 1))
  }

  function Taken(c: Core): Core {
    c.(pending := [], contextSet := false)
  }

  /** After the first `n` requests of a batch have completed, where completing the i-th makes its caller issue
      `again(i)` requests. */
  function Resumed(c: Core, again: nat -> nat, n: nat): Core {
    if n == 0 then c else AskedTimes(Resumed(c, again, n - 1), again(n - 1))
  }

  function Sum(again: nat -> nat, n: nat): nat {
    if n == 0 then 0 else Sum(again, n - 1) + again(n - 1)
  }

  class ProcessEnumerator {
    var pending: seq<Request>
    var contextSet: bool
    var workers: nat
    var nextRequest: Request

    function View(): Core
      reads this
    {
      Core(pending, contextSet, workers, nextRequest)
    }

    constructor ()
      ensures View() == Core([], false, 0, 0)
    {
      pending, contextSet, workers, nextRequest := [], false, 0, 0;
    }

    /** `enumerate_processes`, up to where it waits. */
    method Ask() returns (request: Request)
      modifies this
      ensures request == old(nextRequest) && View() == Asked(old(View()))
      ensures pending == old(pending) + [request] && nextRequest == request + 1
      ensures workers == old(workers) + if old(pending) == [] then 1 else 0
      ensures contextSet == (old(contextSet) || old(pending) == [])
    {
      var isFirstRequest := pending == [];
      request := nextRequest;
      nextRequest := nextRequest + 1;
      if isFirstRequest {
        contextSet := true;
        workers := workers + 1;
      }
      pending := pending + [request];
    }

    /** The idle callback that the worker attaches: each request taken is completed with the list, in order,
        and what the completions ask for anew is left for the next worker. */
    method Deliver(processes: Processes, again: nat -> nat) returns (completed: seq<Completion>)
      modifies this
      ensures |completed| == |old(pending)|
      ensures forall i :: 0 <= i < |completed| ==> completed[i] == Completion(old(pending)[i], processes)
      ensures View() == Resumed(Taken(old(View())), again, |old(pending)|)
    {
      contextSet := false;
      var requests := pending;
      pending := [];
      completed := [];
      var i := 0;
      while i < |requests|
        invariant i <= |requests| && |completed| == i
        invariant forall k :: 0 <= k < i ==> completed[k] == Completion(requests[k], processes)
        invariant View() == Resumed(Taken(old(View())), again, i)
      {
        completed := completed + [Completion(requests[i], processes)];
        ghost var before := View();
        var j := 0;
        while j < again(i)
          invariant j <= again(i) && View() == AskedTimes(before, j)
        {
          var _ := Ask();
          j := j + 1;
        }
        i := i + 1;
      }
    }
  }

  lemma {:induction false} AskedTimesAdds(c: Core, n: nat)
    ensures var after := AskedTimes(c, n);
            && after.nextRequest == c.nextRequest + n
            && |after.pending| == |c.pending| + n && c.pending <= after.pending
            && (forall i :: |c.pending| <= i < |after.pending| ==>
                  after.pending[i] == c.nextRequest + (i - |c.pending|))
            && after.workers == c.workers + (if c.pending == [] && n > 0 then 1 else 0)
            && after.contextSet == (c.contextSet || (c.pending == [] && n > 0))
  {
    if n > 0 { AskedTimesAdds(c, n - 1); }
  }

  /** However many requests the completions of a batch issue, they wait together, in order, and one worker is
      started for all of them; none is if there are none. */
  lemma {:induction false} OneWorkerForReentrantRequests(c: Core, again: nat -> nat, n: nat)
    ensures var after := Resumed(Taken(c), again, n);
            && |after.pending| == Sum(again, n)
            && (forall i :: 0 <= i < |after.pending| ==> after.pending[i] == c.nextRequest + i)
            && after.nextRequest == c.nextRequest + Sum(again, n)
            && after.workers == c.workers + (if Sum(again, n) > 0 then 1 else 0)
            && after.contextSet == (Sum(again, n) > 0)
  {
    if n > 0 {
      OneWorkerForReentrantRequests(c, again, n - 1);
      AskedTimesAdds(Resumed(Taken(c), again, n - 1), again(n - 1));
    }
  }
}
