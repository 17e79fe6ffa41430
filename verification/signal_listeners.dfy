/** The listener list that a Python session or script object keeps for its one signal. */
module SignalListeners {
  import opened Outcomes

  /** A Python callable, by identity. */
  type Callback = nat

  datatype Error = UnsupportedSignal | UnknownCallback

  /** How often each callback is in a list. */
  function Bag(s: seq<Callback>): multiset<Callback> {
    multiset(s)
  }

  /** `connections` counts how often the native handler is connected to the handle, if there is one; `refs`
      holds the references to callbacks that this object and its emissions own. */
  datatype Core = Core(
    hasHandle: bool,
    alive: bool,
    listeners: seq<Callback>,
    connections: nat,
    refs: multiset<Callback>)

  /** The handler is connected, once, exactly while there are listeners. */
  predicate Connected(c: Core) {
    && c.connections == (if c.hasHandle && c.listeners != [] then 1 else 0)
    && (!c.alive ==> c.listeners == [])
  }

  function FirstIndex(s: seq<Callback>, cb: Callback): (i: nat)
    requires cb in s
    ensures i < |s| && s[i] == cb && cb !in s[..i]
  {
    if s[0] == cb then 0 else FirstIndex(s[1..], cb) + 1
  }

  function Without(s: seq<Callback>, i: nat): seq<Callback>
    requires i < |s|
  {
    s[..i] + s[i + 1..]
  }

  lemma WithoutCounts(s: seq<Callback>, i: nat)
    requires i < |s|
    ensures Bag(Without(s, i)) + multiset{s[i]} == Bag(s)
  {
    assert s == s[..i] + ([s[i]] + s[i + 1..]);
  }

  lemma Swap(a: multiset<Callback>, b: multiset<Callback>, x: multiset<Callback>)
    ensures (a + b) + x == (a + x) + b
    ensures (a + b) + x - x == a + b
  {
  }

  lemma AppendCounts(s: seq<Callback>, cb: Callback, others: multiset<Callback>)
    ensures Bag(s + [cb]) + others == Bag(s) + others + multiset{cb}
  {
    assert Bag(s + [cb]) == Bag(s) + multiset{cb};
    Swap(Bag(s), others, multiset{cb});
  }

  lemma Cancel(a: multiset<Callback>, b: multiset<Callback>, x: multiset<Callback>)
    requires a + x == b + x
    ensures a == b
  {
    forall cb
      ensures a[cb] == b[cb]
    {
      assert (a + x)[cb] == (b + x)[cb];
    }
  }

  function Added(c: Core, cb: Callback): Core {
    c.(connections := if c.hasHandle && c.listeners == [] then c.connections + 1 else c.connections,
       listeners := c.listeners + [cb],
       refs := c.refs + multiset{cb})
  }

  function Removed(c: Core, cb: Callback): Core
    requires cb in c.listeners
  {
    var rest := Without(c.listeners, FirstIndex(c.listeners, cb));
    c.(listeners := rest, refs := c.refs - multiset{cb}, connections := if rest == [] then 0 else c.connections)
  }

  function Deallocated(c: Core): Core {
    c.(alive := false, listeners := [], refs := c.refs - Bag(c.listeners),
       connections := if c.listeners != [] then 0 else c.connections)
  }

  /** Every reference is a listener's, but for those in `others`, which emissions under way own. */
  ghost predicate Balanced(c: Core, others: multiset<Callback>) {
    Connected(c) && c.refs == Bag(c.listeners) + others
  }

  lemma AddedBalanced(c: Core, cb: Callback, others: multiset<Callback>)
    requires c.alive && Balanced(c, others)
    ensures Balanced(Added(c, cb), others)
  {
    hide Bag;
    AppendCounts(c.listeners, cb, others);
  }

  lemma RemovedBalanced(c: Core, cb: Callback, others: multiset<Callback>)
    requires cb in c.listeners && Balanced(c, others)
    ensures Balanced(Removed(c, cb), others)
  {
    var i := FirstIndex(c.listeners, cb);
    WithoutCounts(c.listeners, i);
    Swap(Bag(Without(c.listeners, i)), others, multiset{cb});
    hide FirstIndex, Without, Bag;
  }

  lemma DeallocatedBalanced(c: Core, others: multiset<Callback>)
    requires Balanced(c, others)
    ensures Balanced(Deallocated(c), others) && Deallocated(c).refs == others && Deallocated(c).connections == 0
  {
    assert Bag([]) == multiset{};
    hide Bag;
  }

  lemma SnapshotBalanced(c: Core, others: multiset<Callback>)
    requires Balanced(c, others)
    ensures Balanced(Held(c), others + Bag(c.listeners))
  {
    hide Bag;
  }

  lemma ReleasedBalanced(c: Core, others: multiset<Callback>, callbacks: seq<Callback>)
    requires Balanced(c, others + Bag(callbacks))
    ensures Balanced(Released(c, callbacks), others)
  {
    hide Bag;
  }

  /** What a callback may do to the object that is calling it. */
  datatype Action = DoOn(cb: Callback) | DoOff(cb: Callback) | DoDealloc

  type Behaviour = (nat, Callback) -> seq<Action>

  /** An object that is gone can no longer be reached. */
  function Did(c: Core, action: Action): Core {
    if !c.alive then c
    else
      match action
      case DoOn(cb) => Added(c, cb)
      case DoOff(cb) => if cb in c.listeners then Removed(c, cb) else c
      case DoDealloc => Deallocated(c)
  }

  function Acted(c: Core, actions: seq<Action>): Core {
    if actions == [] then c else Did(Acted(c, actions[..|actions| - 1]), actions[|actions| - 1])
  }

  /** After the first `n` of `callbacks` have been called. */
  function Called(c: Core, callbacks: seq<Callback>, behaviour: Behaviour, n: nat): Core
    requires n <= |callbacks|
  {
    if n == 0 then c
    else Acted(Called(c, callbacks, behaviour, n - 1), behaviour(n - 1, callbacks[n - 1]))
  }

  function Held(c: Core): Core {
    c.(refs := c.refs + Bag(c.listeners))
  }

  function Released(c: Core, callbacks: seq<Callback>): Core {
    c.(refs := c.refs - Bag(callbacks))
  }

  function Handled(c: Core, behaviour: Behaviour): Core {
    if !c.alive then c
    else Released(Called(Held(c), c.listeners, behaviour, |c.listeners|), c.listeners)
  }

  class SignalObject {
    const signalName: string
    const hasHandle: bool
    var alive: bool
    var listeners: seq<Callback>
    var connections: nat
    var refs: multiset<Callback>

    function View(): Core
      reads this
    {
      Core(hasHandle, alive, listeners, connections, refs)
    }

    ghost predicate Valid(others: multiset<Callback>)
      reads this
    {
      Balanced(View(), others)
    }

    constructor (signalName: string, hasHandle: bool)
      ensures Valid(multiset{}) && alive && listeners == []
      ensures this.signalName == signalName && this.hasHandle == hasHandle
    {
      this.signalName, this.hasHandle := signalName, hasHandle;
      alive, listeners, connections, refs := true, [], 0, multiset{};
    }

    method On(signal: string, callback: Callback, ghost others: multiset<Callback>) returns (r: Result<(), Error>)
      requires alive && Valid(others)
      modifies this
      ensures Valid(others)
      ensures r == if signal == signalName then Ok(()) else Err(UnsupportedSignal)
      ensures View() == if r.Ok? then Added(old(View()), callback) else old(View())
      ensures r.Ok? ==> listeners == old(listeners) + [callback] && refs == old(refs) + multiset{callback}
      ensures r.Ok? ==> connections == old(connections) + if hasHandle && old(listeners) == [] then 1 else 0
    {
      AddedBalanced(View(), callback, others);
      hide Balanced, Bag;
      if signal != signalName {
        return Err(UnsupportedSignal);
      }
      if listeners == [] {
        if hasHandle { connections := connections + 1; }
      }
      refs := refs + multiset{callback};
      listeners := listeners + [callback];
      return Ok(());
    }

    method Off(signal: string, callback: Callback, ghost others: multiset<Callback>) returns (r: Result<(), Error>)
      requires alive && Valid(others)
      modifies this
      ensures Valid(others)
      ensures r == if signal != signalName then Err(UnsupportedSignal)
                   else if callback !in old(listeners) then Err(UnknownCallback) else Ok(())
      ensures r.Err? ==> View() == old(View())
      ensures r.Ok? ==> View() == Removed(old(View()), callback)
      ensures r.Ok? ==> refs == old(refs) - multiset{callback}
      ensures r.Ok? ==> exists i :: 0 <= i < |old(listeners)| && old(listeners)[i] == callback
                          && callback !in old(listeners)[..i]
                          && listeners == old(listeners)[..i] + old(listeners)[i + 1..]
      ensures r.Ok? ==> connections == if listeners == [] then 0 else old(connections)
    {
      if signal != signalName {
        return Err(UnsupportedSignal);
      }
      if callback !in listeners {
        return Err(UnknownCallback);
      }
      var entry := FirstIndex(listeners, callback);
      RemovedBalanced(View(), callback, others);
      assert Without(listeners, entry) == listeners[..entry] + listeners[entry + 1..];
      hide FirstIndex, Without, Balanced, Bag;
      listeners := Without(listeners, entry);
      refs := refs - multiset{callback};
      if listeners == [] {
        connections := 0;
      }
      return Ok(());
    }

    method Dealloc(ghost others: multiset<Callback>)
      requires alive && Valid(others)
      modifies this
      ensures Valid(others) && View() == Deallocated(old(View()))
      ensures refs == others && connections == 0 && listeners == [] && !alive
    {
      DeallocatedBalanced(View(), others);
      hide Balanced, Bag;
      if listeners != [] {
        connections := 0;
        refs := refs - Bag(listeners);
        listeners := [];
      }
      alive := false;
    }

    method Do(action: Action, ghost others: multiset<Callback>)
      requires Valid(others)
      modifies this
      ensures Valid(others) && View() == Did(old(View()), action)
    {
      hide Balanced, Added, Removed, Deallocated;
      if alive {
        match action
        case DoOn(cb) => var _ := On(signalName, cb, others);
        case DoOff(cb) => var _ := Off(signalName, cb, others);
        case DoDealloc => Dealloc(others);
      }
    }

    /** What one callback does. */
    method Act(actions: seq<Action>, ghost others: multiset<Callback>)
      requires Valid(others)
      modifies this
      ensures Valid(others) && View() == Acted(old(View()), actions)
    {
      var i := 0;
      while i < |actions|
        invariant i <= |actions| && Valid(others) && View() == Acted(old(View()), actions[..i])
      {
        hide Balanced, Did;
        assert actions[..i + 1][..i] == actions[..i];
        Do(actions[i], others);
        i := i + 1;
      }
      assert actions[..i] == actions;
    }

    /** The native handler: calls the listeners there were at its start, whatever these do to the list or to
        the object, and leaves no reference behind. `behaviour` is what each call does. */
    method HandleSignal(behaviour: Behaviour, ghost others: multiset<Callback>) returns (called: seq<Callback>)
      requires Valid(others)
      modifies this
      ensures Valid(others)
      ensures called == if old(alive) then old(listeners) else []
      ensures View() == Handled(old(View()), behaviour)
    {
      hide Balanced, Bag, Acted;
      called := [];
      if !alive {
        return;
      }
      SnapshotBalanced(View(), others);
      refs := refs + Bag(listeners);
      var callbacks := listeners;
      var i := 0;
      while i < |callbacks|
        invariant i <= |callbacks| && called == callbacks[..i]
        invariant Valid(others + Bag(callbacks))
        invariant View() == Called(Held(old(View())), callbacks, behaviour, i)
      {
        called := called + [callbacks[i]];
        Act(behaviour(i, callbacks[i]), others + Bag(callbacks));
        i := i + 1;
      }
      ReleasedBalanced(View(), others, callbacks);
      refs := refs - Bag(callbacks);
    }
  }

  /** Taking off what was just put on leaves the same listeners with the same multiplicities, and in the same
      order exactly if none but copies of the callback follow its first occurrence. */
  lemma OffUndoesOn(c: Core, cb: Callback)
    requires Connected(c)
    ensures var undone := Removed(Added(c, cb), cb);
            && Connected(undone)
            && Bag(undone.listeners) == Bag(c.listeners) && undone.refs == c.refs
            && undone.connections == c.connections
            && (undone.listeners == c.listeners
                <==> forall k :: 0 <= k < |c.listeners| && cb in c.listeners[..k] ==> c.listeners[k] == cb)
  {
    var s := c.listeners + [cb];
    var i := FirstIndex(s, cb);
    UndoneCounts(c.listeners, cb, i);
    UndoneOrder(c.listeners, cb, i);
    UndoneRefs(c.refs, cb);
    hide FirstIndex, Without, Bag;
  }

  lemma UndoneCounts(s: seq<Callback>, cb: Callback, i: nat)
    requires i <= |s| && (s + [cb])[i] == cb
    ensures Bag(Without(s + [cb], i)) == Bag(s)
  {
    WithoutCounts(s + [cb], i);
    assert Bag(s + [cb]) == Bag(s) + multiset{cb};
    hide Bag, Without;
    Cancel(Bag(Without(s + [cb], i)), Bag(s), multiset{cb});
  }

  lemma UndoneRefs(refs: multiset<Callback>, cb: Callback)
    ensures refs + multiset{cb} - multiset{cb} == refs
  {
  }

  lemma UndoneOrder(s: seq<Callback>, cb: Callback, i: nat)
    requires i <= |s| && (s + [cb])[i] == cb && cb !in (s + [cb])[..i]
    ensures Without(s + [cb], i) == s <==> forall k :: 0 <= k < |s| && cb in s[..k] ==> s[k] == cb
    ensures |Without(s + [cb], i)| == |s|
  {
    assert (s + [cb])[..i] == s[..i];
    if i == |s| {
      assert Without(s + [cb], i) == s;
      assert forall k :: 0 <= k < |s| ==> s[..k] <= s[..i];
    } else {
      SameOrder(s, cb, i);
    }
  }

  lemma SameOrder(s: seq<Callback>, cb: Callback, i: nat)
    requires i < |s| && s[i] == cb && cb !in s[..i]
    ensures Without(s + [cb], i) == s <==> forall k :: 0 <= k < |s| && cb in s[..k] ==> s[k] == cb
  {
    var t := Without(s + [cb], i);
    assert |t| == |s| && forall k :: i <= k < |t| ==> t[k] == (s + [cb])[k + 1];
    if t == s {
      forall k | 0 <= k < |s| && cb in s[..k]
        ensures s[k] == cb
      {
        assert k > i;
        AllFollowing(s, cb, i, k);
      }
    }
    if forall k :: 0 <= k < |s| && cb in s[..k] ==> s[k] == cb {
      forall k | i < k < |s| ensures s[k] == cb {
        assert s[..k][i] == cb;
      }
      assert forall k :: 0 <= k < i ==> t[k] == s[k];
      assert forall k :: i <= k < |s| ==> t[k] == cb == s[k];
    }
  }

  lemma {:induction false} AllFollowing(s: seq<Callback>, cb: Callback, i: nat, k: nat)
    requires i <= k < |s| && s[i] == cb && Without(s + [cb], i) == s
    ensures s[k] == cb
  {
    if k > i {
      AllFollowing(s, cb, i, k - 1);
      assert Without(s + [cb], i)[k - 1] == (s + [cb])[k];
    }
  }
}
