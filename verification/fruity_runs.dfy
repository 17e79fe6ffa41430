/** Every run of queries, messages, errors and closing of an usbmux client. */
module FruityRuns {
  import opened Outcomes
  import opened PendingResponses
  import opened FruityFraming
  import opened FruityClient

  /** `reading`: the message loop is waiting for a message; it notices a `close` when its read is cancelled.
      No device notification's handler closes the client, so a `close` always finds the loop at a read. */
  datatype State = State(c: Client, reading: bool)

  const START := State(NEW_CLIENT, false)

  datatype Step = Establish(connection: Option<seq<byte>>) | Ask(modeSwitch: bool) | ReadMessage | Close

  /** One step; a step that cannot happen leaves the state as it is. */
  function Next(s: State, step: Step, dispatch: Frame -> Dispatch): State {
    match step
    case Establish(connection) =>
      if s.c.processing || s.reading then s
      else if connection.Some? then State(Established(s.c, connection.value), true)
      else State(Unconnected(s.c), false)
    case Ask(modeSwitch) => if !s.c.processing then s else s.(c := Asked(s.c, modeSwitch))
    case ReadMessage => if !s.reading then s else State(Turn(s.c, dispatch), Turn(s.c, dispatch).processing)
    case Close => if !s.c.processing then s else s.(c := s.c.(processing := false, cancelled := true))
  }

  function Run(steps: seq<Step>, dispatch: Frame -> Dispatch): State {
    if steps == [] then START else Next(Run(steps[..|steps| - 1], dispatch), steps[|steps| - 1], dispatch)
  }

  // ---- The invariant.

  ghost predicate IsPending(c: Client, q: nat) {
    exists i :: 0 <= i < |c.pending| && c.pending[i].query == q
  }

  ghost predicate IsCompleted(c: Client, q: nat) {
    exists i :: 0 <= i < |c.completed| && c.completed[i].query == q
  }

  /** Outstanding tags are distinct and below `last_tag`. */
  ghost predicate TagInv(c: Client) {
    && 1 <= c.lastTag
    && (forall i :: 0 <= i < |c.pending| ==> 1 <= c.pending[i].id < c.lastTag)
    && (forall i, j :: 0 <= i < j < |c.pending| ==> c.pending[i].id != c.pending[j].id)
  }

  /** Every query is outstanding, has ended once, or was forgotten. */
  ghost predicate QueryInv(c: Client) {
    && (forall i, j :: 0 <= i < j < |c.pending| ==> c.pending[i].query != c.pending[j].query)
    && (forall i, j :: 0 <= i < j < |c.completed| ==> c.completed[i].query != c.completed[j].query)
    && (forall q: nat :: IsPending(c, q) || IsCompleted(c, q) || q in c.dropped <==> q < c.queries)
    && (forall q: nat :: !(IsPending(c, q) && IsCompleted(c, q)))
    && (forall q :: q in c.dropped ==> !IsPending(c, q) && !IsCompleted(c, q))
  }

  /** `mode_switch_tag` is that of the last mode-switch query, or 0 once that query has been refused. */
  ghost predicate ModeSwitchInv(c: Client) {
    && c.lastModeSwitch < c.lastTag
    && (c.modeSwitchTag == c.lastModeSwitch || c.modeSwitchTag == 0)
    && (forall i :: 0 <= i < |c.pending| && c.pending[i].id == c.lastModeSwitch ==>
          c.modeSwitchTag == c.lastModeSwitch)
  }

  /** What is left of the connection is what follows the messages taken from it. */
  ghost predicate StreamInv(c: Client) {
    DecodeMany(c.stream, |c.taken|) == Ok((c.taken, c.input))
  }

  ghost predicate Inv(s: State) {
    TagInv(s.c) && QueryInv(s.c) && ModeSwitchInv(s.c) && StreamInv(s.c) && (s.c.processing ==> s.reading)
  }

  lemma AskedTags(c: Client, modeSwitch: bool)
    requires TagInv(c) && ModeSwitchInv(c) && StreamInv(c)
    ensures TagInv(Asked(c, modeSwitch)) && ModeSwitchInv(Asked(c, modeSwitch)) && StreamInv(Asked(c, modeSwitch))
  {
    hide DecodeMany;
  }

  lemma AskedQueries(c: Client, modeSwitch: bool)
    requires QueryInv(c)
    ensures QueryInv(Asked(c, modeSwitch))
  {
    var t := Asked(c, modeSwitch);
    assert t.pending[|c.pending|].query == c.queries;
    assert forall i :: 0 <= i < |c.pending| ==> IsPending(c, c.pending[i].query);
    forall q ensures IsPending(t, q) <==> IsPending(c, q) || q == c.queries {
      if IsPending(c, q) {
        var i :| 0 <= i < |c.pending| && c.pending[i].query == q;
        assert t.pending[i].query == q;
      }
    }
    assert forall q :: IsCompleted(t, q) <==> IsCompleted(c, q);
  }

  lemma ResolvedPending(c: Client, tag: nat, result: int)
    requires FindPending(c.pending, tag) < |c.pending|
    ensures var i, t := FindPending(c.pending, tag), Resolved(c, tag, result);
            forall k :: 0 <= k < |t.pending| ==> t.pending[k] == c.pending[if k < i then k else k + 1]
  {
  }

  lemma ResolvedTags(c: Client, tag: nat, result: int)
    requires TagInv(c) && ModeSwitchInv(c) && FindPending(c.pending, tag) < |c.pending|
    ensures TagInv(Resolved(c, tag, result)) && ModeSwitchInv(Resolved(c, tag, result))
  {
    ResolvedPending(c, tag, result);
    hide FindPending;
  }

  lemma ResolvedQueries(c: Client, tag: nat, result: int)
    requires QueryInv(c) && FindPending(c.pending, tag) < |c.pending|
    ensures QueryInv(Resolved(c, tag, result))
  {
    ResolvedPending(c, tag, result);
    var i, t := FindPending(c.pending, tag), Resolved(c, tag, result);
    hide FindPending;
    var query := c.pending[i].query;
    assert IsPending(c, query);
    assert t.completed[|c.completed|].query == query;
    assert t.completed[..|c.completed|] == c.completed;
    DistinctAfter(c, t, query);
    forall q ensures IsPending(t, q) <==> IsPending(c, q) && q != query {
      StillPending(c, t, i, q);
    }
    forall q ensures IsCompleted(t, q) <==> IsCompleted(c, q) || q == query {
      CompletedAfter(c, t, q);
    }
    hide IsPending, IsCompleted;
  }

  lemma StillPending(c: Client, t: Client, i: nat, q: nat)
    requires i < |c.pending| && |t.pending| == |c.pending| - 1
    requires forall k :: 0 <= k < |t.pending| ==> t.pending[k] == c.pending[if k < i then k else k + 1]
    requires forall k, l :: 0 <= k < l < |c.pending| ==> c.pending[k].query != c.pending[l].query
    ensures IsPending(t, q) <==> IsPending(c, q) && q != c.pending[i].query
  {
    if IsPending(c, q) && q != c.pending[i].query {
      var k :| 0 <= k < |c.pending| && c.pending[k].query == q;
      assert t.pending[if k < i then k else k - 1].query == q;
    }
  }

  lemma CompletedAfter(c: Client, t: Client, q: nat)
    requires |t.completed| == |c.completed| + 1 && t.completed[..|c.completed|] == c.completed
    ensures IsCompleted(t, q) <==> IsCompleted(c, q) || q == t.completed[|c.completed|].query
  {
    assert forall k :: 0 <= k < |c.completed| ==> t.completed[k] == c.completed[k];
  }

  lemma DistinctAfter(c: Client, t: Client, query: nat)
    requires QueryInv(c) && !IsCompleted(c, query) && |t.completed| == |c.completed| + 1
    requires t.completed[..|c.completed|] == c.completed && t.completed[|c.completed|].query == query
    ensures forall i, j :: 0 <= i < j < |t.completed| ==> t.completed[i].query != t.completed[j].query
  {
    assert forall i :: 0 <= i < |c.completed| ==> t.completed[i] == c.completed[i];
  }

  lemma FailedInv(c: Client)
    requires QueryInv(c)
    ensures TagInv(Failed(c)) && QueryInv(Failed(c)) && ModeSwitchInv(Failed(c)) && StreamInv(Failed(c))
  {
    var t := Failed(c);
    var n := |c.completed|;
    assert forall k :: 0 <= k < |t.completed| ==>
      t.completed[k].query == if k < n then c.completed[k].query else c.pending[k - n].query;
    forall q ensures IsCompleted(t, q) <==> IsCompleted(c, q) || IsPending(c, q) {
      if IsCompleted(c, q) {
        var k :| 0 <= k < n && c.completed[k].query == q;
        assert t.completed[k].query == q;
      }
      if IsPending(c, q) {
        var k :| 0 <= k < |c.pending| && c.pending[k].query == q;
        assert t.completed[n + k].query == q;
      }
    }
    forall i, j | 0 <= i < j < |t.completed| ensures t.completed[i].query != t.completed[j].query {
      if i < n <= j {
        assert IsCompleted(c, c.completed[i].query) && IsPending(c, c.pending[j - n].query);
      }
    }
  }

  lemma UnconnectedInv(c: Client)
    requires QueryInv(c)
    ensures var t := Unconnected(c); TagInv(t) && QueryInv(t) && ModeSwitchInv(t) && StreamInv(t)
  {
    assert forall q :: IsCompleted(Unconnected(c), q) <==> IsCompleted(c, q);
    assert forall q :: IsPending(c, q) <==> q in Queries(c.pending);
    hide Queries;
  }

  lemma TakenInv(c: Client, f: Frame, rest: seq<byte>)
    requires StreamInv(c) && Decode(c.input) == Ok((f, rest))
    ensures StreamInv(c.(input := rest, taken := c.taken + [f]))
  {
    DecodeOneMore(c.stream, |c.taken|);
    hide Decode;
  }

  lemma TurnInv(c: Client, dispatch: Frame -> Dispatch)
    requires TagInv(c) && QueryInv(c) && ModeSwitchInv(c) && StreamInv(c)
    ensures var t := Turn(c, dispatch); TagInv(t) && QueryInv(t) && ModeSwitchInv(t) && StreamInv(t)
  {
    FailedInv(c);
    hide Decode, Failed;
    if !c.cancelled && Decode(c.input).Ok? {
      var (f, rest) := Decode(c.input).value;
      var d := c.(input := rest, taken := c.taken + [f]);
      ReadInv(c, f, rest);
      hide TagInv, QueryInv, ModeSwitchInv, StreamInv;
      if dispatch(f).QueryResult? && FindPending(d.pending, f.tag) < |d.pending| {
        ResolvedTags(d, f.tag, dispatch(f).result);
        ResolvedQueries(d, f.tag, dispatch(f).result);
        ResolvedStream(d, f.tag, dispatch(f).result);
        hide Resolved;
      }
    }
  }

  lemma ReadInv(c: Client, f: Frame, rest: seq<byte>)
    requires TagInv(c) && QueryInv(c) && ModeSwitchInv(c) && StreamInv(c) && Decode(c.input) == Ok((f, rest))
    ensures var d := c.(input := rest, taken := c.taken + [f]);
            TagInv(d) && QueryInv(d) && ModeSwitchInv(d) && StreamInv(d)
  {
    TakenInv(c, f, rest);
    var d := c.(input := rest, taken := c.taken + [f]);
    hide Decode, StreamInv;
    assert forall q :: IsPending(d, q) <==> IsPending(c, q);
    assert forall q :: IsCompleted(d, q) <==> IsCompleted(c, q);
  }

  lemma ResolvedStream(c: Client, tag: nat, result: int)
    requires StreamInv(c) && FindPending(c.pending, tag) < |c.pending|
    ensures StreamInv(Resolved(c, tag, result))
  {
    hide DecodeMany, FindPending;
  }

  lemma NextInv(s: State, step: Step, dispatch: Frame -> Dispatch)
    requires Inv(s)
    ensures Inv(Next(s, step, dispatch))
  {
    match step
    case Ask(modeSwitch) =>
      AskedTags(s.c, modeSwitch);
      AskedQueries(s.c, modeSwitch);
      hide TagInv, QueryInv, ModeSwitchInv, StreamInv;
    case ReadMessage =>
      TurnInv(s.c, dispatch);
      hide TagInv, QueryInv, ModeSwitchInv, StreamInv, Turn;
    case Establish(None) =>
      UnconnectedInv(s.c);
      hide TagInv, QueryInv, ModeSwitchInv, StreamInv, Unconnected;
    case _ =>
      var t := Next(s, step, dispatch).c;
      assert forall q :: IsPending(t, q) <==> IsPending(s.c, q);
      assert forall q :: IsCompleted(t, q) <==> IsCompleted(s.c, q);
  }

  lemma {:induction false} RunInv(steps: seq<Step>, dispatch: Frame -> Dispatch)
    ensures Inv(Run(steps, dispatch))
  {
    if steps != [] {
      RunInv(steps[..|steps| - 1], dispatch);
      hide Inv, Next;
      NextInv(Run(steps[..|steps| - 1], dispatch), steps[|steps| - 1], dispatch);
    }
  }
}
