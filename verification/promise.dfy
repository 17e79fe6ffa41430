/** The CloudSpy promise: settled on one thread, given callbacks on another, with callbacks run outside the
    mutex and free to register more callbacks. */
module Promises {
  import opened Outcomes

  datatype Kind = Done | Fail | Always

  datatype Verdict = Pending | Success | Failure

  /** The three callback arrays; their elements are registration numbers. */
  datatype Lists = Lists(onSuccess: seq<nat>, onFailure: seq<nat>, onComplete: seq<nat>) {
    function Of(kind: Kind): seq<nat> {
      match kind
      case Done => onSuccess
      case Fail => onFailure
      case Always => onComplete
    }

    function Add(kind: Kind, r: nat): Lists {
      match kind
      case Done => this.(onSuccess := onSuccess + [r])
      case Fail => this.(onFailure := onFailure + [r])
      case Always => this.(onComplete := onComplete + [r])
    }
  }

  const NO_CALLBACKS := Lists([], [], [])

  /** Whether a callback of this kind is to run under this outcome. */
  predicate Matches(result: Verdict, kind: Kind) {
    match kind
    case Done => result == Success
    case Fail => result == Failure
    case Always => result != Pending
  }

  /** The callbacks a flush calls, in order. */
  function RunList(result: Verdict, taken: Lists): seq<nat> {
    (if result == Success then taken.onSuccess else taken.onFailure) + taken.onComplete
  }

  datatype Invocation = Invocation(r: nat, args: seq<int>)

  function Invocations(rs: seq<nat>, args: seq<int>): (log: seq<Invocation>)
    ensures |log| == |rs| && forall i :: 0 <= i < |rs| ==> log[i] == Invocation(rs[i], args)
  {
    seq(|rs|, i requires 0 <= i < |rs| => Invocation(rs[i], args))
  }

  /** What the mutex protects. */
  datatype Core = Core(result: Verdict, args: seq<int>, lists: Lists)

  /** `deliver`'s locked section. */
  function Settled(c: Core, result: Verdict, args: seq<int>): Core {
    c.(result := result, args := args)
  }

  /** The locked start of a flush: nothing while pending, else the arrays are taken and replaced. */
  function Emptied(c: Core): Core {
    if c.result == Pending then c else c.(lists := NO_CALLBACKS)
  }

  class Promise {
    var result: Verdict
    var args: seq<int>
    var onSuccess: seq<nat>
    var onFailure: seq<nat>
    var onComplete: seq<nat>
    ghost var invoked: seq<Invocation>

    ghost function View(): Core
      reads this
    {
      Core(result, args, Lists(onSuccess, onFailure, onComplete))
    }

    constructor ()
      ensures View() == Core(Pending, [], NO_CALLBACKS) && invoked == []
    {
      result, args := Pending, [];
      onSuccess, onFailure, onComplete := [], [], [];
      invoked := [];
    }

    method Resolve(args: seq<int>)
      requires result == Pending
      modifies this`result, this`args
      ensures result == Success && this.args == args && View() == Settled(old(View()), Success, args)
    {
      Deliver(Success, args);
    }

    method Reject(args: seq<int>)
      requires result == Pending
      modifies this`result, this`args
      ensures result == Failure && this.args == args && View() == Settled(old(View()), Failure, args)
    {
      Deliver(Failure, args);
    }

    method Deliver(result: Verdict, args: seq<int>)
      requires this.result == Pending && result != Pending
      modifies this`result, this`args
      ensures this.result == result && this.args == args
      ensures View() == Settled(old(View()), result, args)
    {
      this.result := result;
      var copied := [];
      for i := 0 to |args|
        invariant copied == args[..i]
      {
        copied := copied + [args[i]];
      }
      this.args := copied;
    }

    method Add(kind: Kind, callback: nat)
      modifies this`onSuccess, this`onFailure, this`onComplete
      ensures View() == old(View()).(lists := old(View()).lists.Add(kind, callback))
      ensures onSuccess == old(onSuccess) + if kind == Done then [callback] else []
      ensures onFailure == old(onFailure) + if kind == Fail then [callback] else []
      ensures onComplete == old(onComplete) + if kind == Always then [callback] else []
    {
      match kind {
        case Done => onSuccess := onSuccess + [callback];
        case Fail => onFailure := onFailure + [callback];
        case Always => onComplete := onComplete + [callback];
      }
    }

    /** `flush_unlocked` up to where it drops the mutex; nothing is taken while the promise is pending. */
    method TakeCallbacks() returns (taken: Option<Lists>)
      modifies this`onSuccess, this`onFailure, this`onComplete
      ensures View() == Emptied(old(View()))
      ensures result == Pending ==> taken == None
      ensures result != Pending ==>
                && taken == Some(Lists(old(onSuccess), old(onFailure), old(onComplete)))
                && onSuccess == onFailure == onComplete == []
    {
      if result == Pending {
        return None;
      }
      taken := Some(Lists(onSuccess, onFailure, onComplete));
      onSuccess, onFailure, onComplete := [], [], [];
    }

    /** The calls of one flush, with no other step in between. */
    method InvokeCallbacks(taken: Lists)
      requires result != Pending
      modifies this`invoked
      ensures invoked == old(invoked) + Invocations(RunList(result, taken), args)
      ensures result == Success ==> invoked == old(invoked) + Invocations(taken.onSuccess + taken.onComplete, args)
      ensures result == Failure ==> invoked == old(invoked) + Invocations(taken.onFailure + taken.onComplete, args)
    {
      var first := if result == Success then taken.onSuccess else taken.onFailure;
      InvocationsConcat(first, taken.onComplete, args);
      hide Invocations;
      InvokeEach(first);
      InvokeEach(taken.onComplete);
    }

    /** One array of callbacks. */
    method InvokeEach(callbacks: seq<nat>)
      modifies this`invoked
      ensures invoked == old(invoked) + Invocations(callbacks, args)
    {
      for i := 0 to |callbacks|
        invariant invoked == old(invoked) + Invocations(callbacks[..i], args)
      {
        invoked := invoked + [Invocation(callbacks[i], args)];
      }
      assert callbacks[..|callbacks|] == callbacks;
    }
  }

  lemma InvocationsConcat(a: seq<nat>, b: seq<nat>, args: seq<int>)
    ensures Invocations(a + b, args) == Invocations(a, args) + Invocations(b, args)
  {
  }
}
