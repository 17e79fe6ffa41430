/** What the usbmux client promises, over every run. */
module FruityTheorems {
  import opened Outcomes
  import opened PendingResponses
  import opened FruityFraming
  import opened FruityClient
  import opened FruityRuns

  lemma RunAppend(steps: seq<Step>, step: Step, dispatch: Frame -> Dispatch)
    ensures Run(steps + [step], dispatch) == Next(Run(steps, dispatch), step, dispatch)
  {
    assert (steps + [step])[..|steps|] == steps;
  }

  // ---- Every query ends once.

  ghost predicate EndedOnce(c: Client, q: nat) {
    exists i :: 0 <= i < |c.completed| && c.completed[i].query == q
      && forall j :: 0 <= j < |c.completed| && j != i ==> c.completed[j].query != q
  }

  lemma EndedOrPending(c: Client, q: nat)
    requires QueryInv(c) && q < c.queries && !IsPending(c, q) && q !in c.dropped
    ensures EndedOnce(c, q)
  {
    assert IsCompleted(c, q);
    hide IsPending;
    var i :| 0 <= i < |c.completed| && c.completed[i].query == q;
    assert forall j :: 0 <= j < |c.completed| && j != i ==> c.completed[j].query != q;
  }

  /** Outstanding tags are distinct and below `last_tag`; a query is outstanding, or has ended exactly once, or
      was forgotten, and only one of these; a run with nothing outstanding has ended every other query. */
  lemma EveryQueryEndsOnce(steps: seq<Step>, dispatch: Frame -> Dispatch, q: nat)
    requires q < Run(steps, dispatch).c.queries
    ensures TagInv(Run(steps, dispatch).c)
    ensures var c := Run(steps, dispatch).c;
            && (IsPending(c, q) <==> !IsCompleted(c, q) && q !in c.dropped)
            && !(IsCompleted(c, q) && q in c.dropped)
            && (IsCompleted(c, q) ==> EndedOnce(c, q))
            && (c.pending == [] && q !in c.dropped ==> EndedOnce(c, q))
  {
    RunInv(steps, dispatch);
    var c := Run(steps, dispatch).c;
    assert QueryInv(c);
    hide Run, EndedOnce;
    if !IsPending(c, q) && q !in c.dropped { EndedOrPending(c, q); }
  }

  ghost predicate ForgetsNow(s: State, step: Step, q: nat) {
    step == Establish(None) && !s.c.processing && !s.reading && IsPending(s.c, q)
  }

  /** The `k`th step is an attempt to connect that fails while the query is outstanding. */
  ghost predicate ForgottenAt(steps: seq<Step>, dispatch: Frame -> Dispatch, k: nat, q: nat) {
    k < |steps| && ForgetsNow(Run(steps[..k], dispatch), steps[k], q)
  }

  lemma {:induction false} DroppedIff(steps: seq<Step>, dispatch: Frame -> Dispatch, q: nat)
    ensures q in Run(steps, dispatch).c.dropped <==> exists k: nat :: ForgottenAt(steps, dispatch, k, q)
  {
    if steps != [] {
      var n := |steps| - 1;
      var s := Run(steps[..n], dispatch);
      DroppedIff(steps[..n], dispatch, q);
      NextDropped(s, steps[n], dispatch, q);
      hide Next, ForgetsNow;
      ForgottenLast(steps, dispatch, q);
    }
  }

  /** A query that has been made is neither outstanding nor ended, so that its caller waits forever, exactly if
      it was outstanding, with the loop stopped, when an attempt to connect failed. */
  lemma {:induction false} ForgottenIff(steps: seq<Step>, dispatch: Frame -> Dispatch, q: nat)
    requires q < Run(steps, dispatch).c.queries
    ensures var c := Run(steps, dispatch).c;
            !IsPending(c, q) && !IsCompleted(c, q) <==> exists k: nat :: ForgottenAt(steps, dispatch, k, q)
  {
    EveryQueryEndsOnce(steps, dispatch, q);
    DroppedIff(steps, dispatch, q);
    hide Run, ForgottenAt, IsPending, IsCompleted, EndedOnce, TagInv;
  }

  lemma ForgottenLast(steps: seq<Step>, dispatch: Frame -> Dispatch, q: nat)
    requires steps != []
    ensures var n := |steps| - 1;
            (exists k: nat :: ForgottenAt(steps, dispatch, k, q))
            <==> ForgetsNow(Run(steps[..n], dispatch), steps[n], q)
                 || exists k: nat :: ForgottenAt(steps[..n], dispatch, k, q)
  {
    var n := |steps| - 1;
    hide Run, ForgetsNow;
    forall k: nat
      ensures ForgottenAt(steps, dispatch, k, q) <==>
                if k == n then ForgetsNow(Run(steps[..n], dispatch), steps[n], q)
                else ForgottenAt(steps[..n], dispatch, k, q)
    {
      if k < n { assert steps[..n][..k] == steps[..k]; }
    }
    assert !ForgottenAt(steps[..n], dispatch, n, q);
    assert ForgottenAt(steps, dispatch, n, q) || !ForgottenAt(steps, dispatch, n, q);
    hide ForgottenAt;
  }

  lemma NextDropped(s: State, step: Step, dispatch: Frame -> Dispatch, q: nat)
    ensures q in Next(s, step, dispatch).c.dropped <==>
              q in s.c.dropped || ForgetsNow(s, step, q)
  {
    hide Decode, FindPending, AllFailed;
  }

  /** The `k`th step of the run is a message that is the result `result` of the query with this tag. */
  ghost predicate Replied(steps: seq<Step>, dispatch: Frame -> Dispatch, k: nat, tag: nat, result: int) {
    && k < |steps| && steps[k] == ReadMessage && Run(steps[..k], dispatch).reading
    && !Run(steps[..k], dispatch).c.cancelled
    && var r := Decode(Run(steps[..k], dispatch).c.input);
       r.Ok? && r.value.0.tag == tag && dispatch(r.value.0) == QueryResult(result)
  }

  /** The next message cannot be had or used: the read is cancelled, the stream ends or breaks the framing, or the
      message is rejected or answers nobody. */
  ghost predicate CannotGoOn(c: Client, dispatch: Frame -> Dispatch) {
    || c.cancelled || Decode(c.input).Err?
    || var f := Decode(c.input).value.0;
       dispatch(f) == Rejected
       || (dispatch(f).QueryResult? && forall i :: 0 <= i < |c.pending| ==> c.pending[i].id != f.tag)
  }

  /** What reading does: if it cannot go on, every outstanding query ends with -1, in order, and the loop stops; a
      notification changes nothing; a reply ends the first query with its tag, and no other, with its result. */
  lemma ReadEffect(c: Client, dispatch: Frame -> Dispatch)
    ensures var t := Turn(c, dispatch);
            if CannotGoOn(c, dispatch) then
              && t.pending == [] && !t.processing && |t.completed| == |c.completed| + |c.pending|
              && t.completed[..|c.completed|] == c.completed
              && forall i :: 0 <= i < |c.pending| ==>
                   t.completed[|c.completed| + i] == Completion(c.pending[i].query, c.pending[i].id, -1)
            else
              var (f, rest) := Decode(c.input).value;
              && t.input == rest && t.taken == c.taken + [f]
              && match dispatch(f)
                 case Notification =>
                   t.pending == c.pending && t.completed == c.completed && t.processing == c.processing
                 case QueryResult(result) =>
                   exists i :: 0 <= i < |c.pending| && c.pending[i].id == f.tag
                     && (forall j :: 0 <= j < i ==> c.pending[j].id != f.tag)
                     && t.pending == c.pending[..i] + c.pending[i + 1..]
                     && t.completed == c.completed + [Completion(c.pending[i].query, f.tag, result)]
                     && t.processing == (c.processing && !(f.tag == c.modeSwitchTag && result == 0))
  {
    hide Decode;
    if !c.cancelled && Decode(c.input).Ok? {
      var (f, rest) := Decode(c.input).value;
      var i := FindPending(c.pending, f.tag);
      hide FindPending;
      if dispatch(f).QueryResult? && i < |c.pending| {
        assert c.pending[i].id == f.tag;
      }
    }
  }

  /** The `k`th step of the run ends the message loop with an error. */
  ghost predicate BrokenOff(steps: seq<Step>, dispatch: Frame -> Dispatch, k: nat) {
    && k < |steps| && steps[k] == ReadMessage && Run(steps[..k], dispatch).reading
    && CannotGoOn(Run(steps[..k], dispatch).c, dispatch)
  }

  /** A single step adds to the log the query it answers, or fails all outstanding ones, or nothing. */
  lemma TurnLog(c: Client, dispatch: Frame -> Dispatch)
    ensures var t := Turn(c, dispatch);
            || (t == Failed(c) && CannotGoOn(c, dispatch))
            || t.completed == c.completed
            || exists i :: 0 <= i < |c.pending| && !c.cancelled && Decode(c.input).Ok?
                 && Decode(c.input).value.0.tag == c.pending[i].id
                 && dispatch(Decode(c.input).value.0).QueryResult?
                 && t.completed == c.completed
                      + [Completion(c.pending[i].query, c.pending[i].id, dispatch(Decode(c.input).value.0).result)]
  {
    hide Decode;
    if !c.cancelled && Decode(c.input).Ok? {
      var (f, rest) := Decode(c.input).value;
      var d := c.(input := rest, taken := c.taken + [f]);
      if dispatch(f).QueryResult? && FindPending(d.pending, f.tag) < |d.pending| {
        var i := FindPending(d.pending, f.tag);
        assert Turn(c, dispatch) == Resolved(d, f.tag, dispatch(f).result);
      }
    }
  }

  /** A query ends with the result in a message that carries its own tag, or with -1 because the message
      loop broke off; at that step `k` it was outstanding under that tag. */
  lemma {:induction false} CompletionCause(steps: seq<Step>, dispatch: Frame -> Dispatch, i: nat) returns (k: nat)
    requires i < |Run(steps, dispatch).c.completed|
    ensures k < |steps|
    ensures var done := Run(steps, dispatch).c.completed[i];
            && Pending(done.tag, done.query) in Run(steps[..k], dispatch).c.pending
            && (Replied(steps, dispatch, k, done.tag, done.result)
                || (done.result == -1 && BrokenOff(steps, dispatch, k)))
  {
    var before, step := steps[..|steps| - 1], steps[|steps| - 1];
    var s := Run(before, dispatch);
    if i < |s.c.completed| {
      k := CompletionCause(before, dispatch, i);
      assert before[..k] == steps[..k];
      LogGrows(s, step, dispatch);
    } else {
      k := |steps| - 1;
      NewCompletion(s, step, dispatch, i);
    }
  }

  lemma LogGrows(s: State, step: Step, dispatch: Frame -> Dispatch)
    ensures s.c.completed <= Next(s, step, dispatch).c.completed
  {
    hide Decode, FindPending, AllFailed;
  }

  lemma NewCompletion(s: State, step: Step, dispatch: Frame -> Dispatch, i: nat)
    requires |s.c.completed| <= i < |Next(s, step, dispatch).c.completed|
    ensures step == ReadMessage && s.reading
    ensures var done := Next(s, step, dispatch).c.completed[i];
            && Pending(done.tag, done.query) in s.c.pending
            && (|| (done.result == -1 && CannotGoOn(s.c, dispatch))
                || (!s.c.cancelled && Decode(s.c.input).Ok? && Decode(s.c.input).value.0.tag == done.tag
                    && dispatch(Decode(s.c.input).value.0) == QueryResult(done.result)))
  {
    TurnLog(s.c, dispatch);
    hide Decode, Turn, CannotGoOn;
    assert step == ReadMessage && s.reading;
  }

  // ---- Mode switches.

  lemma {:induction false} EncodeSplit(protocolVersion: uint32, fs: seq<Frame>, k: nat)
    requires k <= |fs| && forall f <- fs :: Sendable(f)
    ensures EncodeMany(protocolVersion, fs)
         == EncodeMany(protocolVersion, fs[..k]) + EncodeMany(protocolVersion, fs[k..])
  {
    if k == 0 {
      assert fs[0..] == fs && fs[..0] == [];
    } else {
      assert Sendable(fs[0]);
      hide Sendable, CreateMessage;
      EncodeSplit(protocolVersion, fs[1..], k - 1);
      assert fs[..k][1..] == fs[1..][..k - 1] && fs[k..] == fs[1..][k - 1..];
      Join(CreateMessage(protocolVersion, fs[0]), EncodeMany(protocolVersion, fs[..k][1..]),
           EncodeMany(protocolVersion, fs[k..]));
    }
  }

  lemma Join(a: seq<byte>, b: seq<byte>, c: seq<byte>)
    ensures a + (b + c) == a + b + c
  {
  }

  /** What a connection has left once some of the messages sent over it have been taken. */
  lemma LeftOver(c: Client, protocolVersion: uint32, fs: seq<Frame>, rest: seq<byte>)
    requires StreamInv(c) && (forall f <- fs :: Sendable(f))
    requires c.stream == EncodeMany(protocolVersion, fs) + rest && |c.taken| <= |fs|
    ensures c.taken == fs[..|c.taken|] && c.input == EncodeMany(protocolVersion, fs[|c.taken|..]) + rest
  {
    var k := |c.taken|;
    EncodeSplit(protocolVersion, fs, k);
    var tail := EncodeMany(protocolVersion, fs[k..]) + rest;
    assert forall f <- fs[..k] :: f in fs;
    Join(EncodeMany(protocolVersion, fs[..k]), EncodeMany(protocolVersion, fs[k..]), rest);
    DecodeEncoded(protocolVersion, fs[..k], tail);
    hide EncodeMany, DecodeMany;
  }

  /** No message is read while the loop is stopped. */
  lemma {:induction false} StoppedReadsNothing(steps: seq<Step>, more: seq<Step>, dispatch: Frame -> Dispatch)
    requires !Run(steps, dispatch).reading && !Run(steps, dispatch).c.processing
    requires forall step <- more :: !step.Establish?
    ensures Run(steps + more, dispatch) == Run(steps, dispatch)
  {
    hide Run;
    if more == [] {
      assert steps + more == steps;
    } else {
      var most, step := more[..|more| - 1], more[|more| - 1];
      assert forall step <- most :: step in more;
      StoppedReadsNothing(steps, most, dispatch);
      RunAppend(steps + most, step, dispatch);
      hide Turn, Established, Unconnected, Asked;
      assert steps + more == steps + most + [step] && step in more;
    }
  }

  /** After the successful reply to the last mode-switch query, the loop has taken exactly the messages up to
      that reply, whatever they were and whatever else happened in between, and it takes no byte of what
      follows, whatever happens next on this connection. */
  lemma ModeSwitchHandsOver(steps: seq<Step>, more: seq<Step>, dispatch: Frame -> Dispatch,
                            protocolVersion: uint32, fs: seq<Frame>, rest: seq<byte>)
    requires forall f <- fs :: Sendable(f)
    requires Run(steps, dispatch).reading && !Run(steps, dispatch).c.cancelled
    requires Run(steps, dispatch).c.stream == EncodeMany(protocolVersion, fs) + rest
    requires |fs| == |Run(steps, dispatch).c.taken| + 1
    requires dispatch(fs[|fs| - 1]) == QueryResult(SUCCESS)
    requires fs[|fs| - 1].tag == Run(steps, dispatch).c.modeSwitchTag
    requires FindPending(Run(steps, dispatch).c.pending, fs[|fs| - 1].tag) < |Run(steps, dispatch).c.pending|
    requires forall step <- more :: !step.Establish?
    ensures !Run(steps + [ReadMessage] + more, dispatch).c.processing
    ensures Run(steps + [ReadMessage] + more, dispatch).c.taken == fs
    ensures Run(steps + [ReadMessage] + more, dispatch).c.input == rest
  {
    ReplyIsNext(steps, dispatch, protocolVersion, fs, rest);
    hide EncodeMany, Decode, FindPending, Sendable, Run;
    ReplyStops(steps, dispatch, fs[|fs| - 1], rest);
    StoppedReadsNothing(steps + [ReadMessage], more, dispatch);
    assert fs[..|fs| - 1] + [fs[|fs| - 1]] == fs;
  }

  lemma ReplyStops(steps: seq<Step>, dispatch: Frame -> Dispatch, reply: Frame, rest: seq<byte>)
    requires var s := Run(steps, dispatch);
             && s.reading && !s.c.cancelled && Decode(s.c.input) == Ok((reply, rest))
             && dispatch(reply) == QueryResult(SUCCESS)
             && reply.tag == s.c.modeSwitchTag && FindPending(s.c.pending, reply.tag) < |s.c.pending|
    ensures var t := Run(steps + [ReadMessage], dispatch);
            && !t.reading && !t.c.processing
            && t.c.taken == Run(steps, dispatch).c.taken + [reply] && t.c.input == rest
  {
    RunAppend(steps, ReadMessage, dispatch);
    hide Run, Decode, FindPending;
    SuccessStops(Run(steps, dispatch).c, dispatch, reply, rest);
    hide Turn;
  }

  lemma ReplyIsNext(steps: seq<Step>, dispatch: Frame -> Dispatch, protocolVersion: uint32, fs: seq<Frame>,
                    rest: seq<byte>)
    requires forall f <- fs :: Sendable(f)
    requires Run(steps, dispatch).c.stream == EncodeMany(protocolVersion, fs) + rest
    requires |fs| == |Run(steps, dispatch).c.taken| + 1
    ensures Decode(Run(steps, dispatch).c.input) == Ok((fs[|fs| - 1], rest))
    ensures Run(steps, dispatch).c.taken == fs[..|fs| - 1]
  {
    RunInv(steps, dispatch);
    var c := Run(steps, dispatch).c;
    assert StreamInv(c);
    hide Run, DecodeMany, Decode;
    LeftOver(c, protocolVersion, fs, rest);
    LastMessage(protocolVersion, fs, |c.taken|, rest);
  }

  lemma SuccessStops(c: Client, dispatch: Frame -> Dispatch, reply: Frame, rest: seq<byte>)
    requires !c.cancelled && Decode(c.input) == Ok((reply, rest)) && dispatch(reply) == QueryResult(SUCCESS)
    requires reply.tag == c.modeSwitchTag && FindPending(c.pending, reply.tag) < |c.pending|
    ensures var t := Turn(c, dispatch); !t.processing && t.taken == c.taken + [reply] && t.input == rest
  {
    hide Decode, FindPending;
  }

  lemma LastMessage(protocolVersion: uint32, fs: seq<Frame>, k: nat, rest: seq<byte>)
    requires |fs| == k + 1 && forall f <- fs :: Sendable(f)
    ensures Decode(EncodeMany(protocolVersion, fs[k..]) + rest) == Ok((fs[k], rest))
  {
    assert fs[k] in fs && Sendable(fs[k]);
    DecodeCreated(protocolVersion, fs[k], rest);
    assert fs[k..] == [fs[k]] && fs[k..][1..] == [];
    hide CreateMessage;
    var last := CreateMessage(protocolVersion, fs[k]);
    assert last + [] == last;
    assert EncodeMany(protocolVersion, fs[k..]) == last + EncodeMany(protocolVersion, []);
  }

  /** The reply to an outstanding query, read in a healthy state. */
  ghost predicate NextIsReply(s: State, dispatch: Frame -> Dispatch, tag: nat, result: int) {
    && s.reading && s.c.processing && !s.c.cancelled && Decode(s.c.input).Ok?
    && Decode(s.c.input).value.0.tag == tag && dispatch(Decode(s.c.input).value.0) == QueryResult(result)
    && FindPending(s.c.pending, tag) < |s.c.pending|
  }

  /** A reply stops the message loop iff it is the success of the most recent mode-switch query: a refusal
      leaves it running, and so does the success of a mode switch that a later one has overtaken. */
  lemma StopsIffLastModeSwitchSucceeds(steps: seq<Step>, dispatch: Frame -> Dispatch, tag: nat, result: int)
    requires NextIsReply(Run(steps, dispatch), dispatch, tag, result)
    ensures Run(steps + [ReadMessage], dispatch).c.processing <==>
              !(result == 0 && tag == Run(steps, dispatch).c.lastModeSwitch)
    ensures Run(steps + [ReadMessage], dispatch).reading == Run(steps + [ReadMessage], dispatch).c.processing
  {
    RunInv(steps, dispatch);
    RunAppend(steps, ReadMessage, dispatch);
    var c := Run(steps, dispatch).c;
    assert ModeSwitchInv(c) && TagInv(c);
    hide Run, Decode;
    var i := FindPending(c.pending, tag);
    assert c.pending[i].id == tag && tag >= 1;
    assert tag == c.modeSwitchTag <==> tag == c.lastModeSwitch;
  }

  /** Of two mode switches under way at once, the success of the first does not stop the loop. */
  lemma OverlappingModeSwitches(dispatch: Frame -> Dispatch, reply: Frame)
    requires dispatch(reply) == QueryResult(SUCCESS) && reply.tag == 1 && Sendable(reply)
    ensures var s := Run([Establish(Some(CreateMessage(0, reply))), Ask(true), Ask(true), ReadMessage], dispatch);
            s.c.processing && s.c.completed == [Completion(0, 1, SUCCESS)]
  {
    var stream := CreateMessage(0, reply);
    TwoSwitchesUnderWay(stream, dispatch);
    DecodeCreated(0, reply, []);
    assert stream + [] == stream;
    hide Run, Decode, CreateMessage;
    var steps := [Establish(Some(stream)), Ask(true), Ask(true)];
    RunAppend(steps, ReadMessage, dispatch);
    assert steps + [ReadMessage] == [Establish(Some(stream)), Ask(true), Ask(true), ReadMessage];
    FirstSwitchAnswered(Run(steps, dispatch).c, dispatch, reply);
  }

  lemma TwoSwitchesUnderWay(stream: seq<byte>, dispatch: Frame -> Dispatch)
    ensures var s := Run([Establish(Some(stream)), Ask(true), Ask(true)], dispatch);
            && s.reading && s.c.processing && !s.c.cancelled && s.c.input == stream && s.c.completed == []
            && s.c.pending == [Pending(1, 0), Pending(2, 1)] && s.c.modeSwitchTag == 2
  {
    var a, b := Establish(Some(stream)), Ask(true);
    assert Run([], dispatch) == START;
    RunAppend([], a, dispatch);
    RunAppend([a], b, dispatch);
    RunAppend([a, b], b, dispatch);
    hide Run;
    assert [] + [a] == [a] && [a] + [b] == [a, b] && [a, b] + [b] == [a, b, b];
    var c := Asked(Established(NEW_CLIENT, stream), true);
    assert c.pending == [Pending(1, 0)] && Asked(c, true).pending == [Pending(1, 0)] + [Pending(2, 1)];
  }

  lemma FirstSwitchAnswered(c: Client, dispatch: Frame -> Dispatch, reply: Frame)
    requires c.processing && !c.cancelled && c.completed == [] && Decode(c.input) == Ok((reply, []))
    requires c.pending == [Pending(1, 0), Pending(2, 1)] && c.modeSwitchTag == 2
    requires dispatch(reply) == QueryResult(SUCCESS) && reply.tag == 1
    ensures var t := Turn(c, dispatch); t.processing && t.completed == [Completion(0, 1, SUCCESS)]
  {
    hide Decode;
    assert FindPending(c.pending, 1) == 0;
  }

  /** A successful mode switch leaves every other outstanding query waiting for as long as the client is not
      connected again: all have ended iff the mode switch was the only one. */
  lemma {:induction false} ModeSwitchStrandsOthers(steps: seq<Step>, more: seq<Step>, dispatch: Frame -> Dispatch,
                                                   tag: nat)
    requires NextIsReply(Run(steps, dispatch), dispatch, tag, SUCCESS)
    requires tag == Run(steps, dispatch).c.lastModeSwitch
    requires forall step <- more :: !step.Establish?
    ensures Run(steps + [ReadMessage] + more, dispatch).c.pending == [] <==> |Run(steps, dispatch).c.pending| == 1
    ensures forall p <- Run(steps, dispatch).c.pending :: p.id != tag ==>
              p in Run(steps + [ReadMessage] + more, dispatch).c.pending
  {
    StopsIffLastModeSwitchSucceeds(steps, dispatch, tag, SUCCESS);
    StoppedReadsNothing(steps + [ReadMessage], more, dispatch);
    RunAppend(steps, ReadMessage, dispatch);
    ReplyRemovesOne(Run(steps, dispatch), dispatch, tag, SUCCESS);
    hide Run, Decode, FindPending, Turn;
  }

  /** A run in which that happens: an ordinary query and a mode switch are outstanding, the switch succeeds, and
      the other query is still waiting. When connecting then fails, it is forgotten. */
  lemma {:induction false} StrandedThenForgotten(dispatch: Frame -> Dispatch, reply: Frame)
    requires dispatch(reply) == QueryResult(SUCCESS) && reply.tag == 2 && Sendable(reply)
    ensures var steps := [Establish(Some(CreateMessage(0, reply))), Ask(false), Ask(true), ReadMessage];
            && Run(steps, dispatch).c.pending == [Pending(1, 0)]
            && !Run(steps, dispatch).reading && !Run(steps, dispatch).c.processing
            && var c := Run(steps + [Establish(None)], dispatch).c;
               c.queries == 2 && !IsPending(c, 0) && !IsCompleted(c, 0)
  {
    var stream := CreateMessage(0, reply);
    QueryThenSwitch(stream, dispatch);
    DecodeCreated(0, reply, []);
    assert stream + [] == stream;
    hide Run, Decode, CreateMessage;
    var asked := [Establish(Some(stream)), Ask(false), Ask(true)];
    var steps := [Establish(Some(stream)), Ask(false), Ask(true), ReadMessage];
    RunAppend(asked, ReadMessage, dispatch);
    assert asked + [ReadMessage] == steps;
    SwitchAnswered(Run(asked, dispatch).c, dispatch, reply);
    RunAppend(steps, Establish(None), dispatch);
    hide Turn;
  }

  lemma QueryThenSwitch(stream: seq<byte>, dispatch: Frame -> Dispatch)
    ensures var s := Run([Establish(Some(stream)), Ask(false), Ask(true)], dispatch);
            && s.reading && s.c.processing && !s.c.cancelled && s.c.input == stream && s.c.completed == []
            && s.c.pending == [Pending(1, 0), Pending(2, 1)] && s.c.modeSwitchTag == 2 && s.c.queries == 2
  {
    var a, b, d := Establish(Some(stream)), Ask(false), Ask(true);
    assert Run([], dispatch) == START;
    RunAppend([], a, dispatch);
    RunAppend([a], b, dispatch);
    RunAppend([a, b], d, dispatch);
    hide Run;
    assert [] + [a] == [a] && [a] + [b] == [a, b] && [a, b] + [d] == [a, b, d];
    var c := Asked(Established(NEW_CLIENT, stream), false);
    assert c.pending == [Pending(1, 0)] && Asked(c, true).pending == [Pending(1, 0)] + [Pending(2, 1)];
  }

  lemma SwitchAnswered(c: Client, dispatch: Frame -> Dispatch, reply: Frame)
    requires c.processing && !c.cancelled && c.completed == [] && Decode(c.input) == Ok((reply, []))
    requires c.pending == [Pending(1, 0), Pending(2, 1)] && c.modeSwitchTag == 2
    requires dispatch(reply) == QueryResult(SUCCESS) && reply.tag == 2
    ensures var t := Turn(c, dispatch);
            && !t.processing && t.pending == [Pending(1, 0)] && t.completed == [Completion(1, 2, SUCCESS)]
            && t.queries == c.queries
  {
    hide Decode;
    assert FindPending(c.pending, 2) == 1;
    assert c.pending[..1] + c.pending[2..] == [Pending(1, 0)];
  }

  lemma ReplyRemovesOne(s: State, dispatch: Frame -> Dispatch, tag: nat, result: int)
    requires NextIsReply(s, dispatch, tag, result)
    ensures |Turn(s.c, dispatch).pending| == |s.c.pending| - 1
    ensures forall p <- s.c.pending :: p.id != tag ==> p in Turn(s.c, dispatch).pending
  {
    var i, t := FindPending(s.c.pending, tag), Turn(s.c, dispatch);
    hide Decode, FindPending;
    assert t.pending == s.c.pending[..i] + s.c.pending[i + 1..];
    hide Turn;
    forall p | p in s.c.pending && p.id != tag ensures p in t.pending {
      var j :| 0 <= j < |s.c.pending| && s.c.pending[j] == p;
      assert t.pending[if j < i then j else j - 1] == p;
    }
  }

  // ---- Closing.

  ghost predicate ClosedAt(steps: seq<Step>, dispatch: Frame -> Dispatch, k: nat) {
    k < |steps| && steps[k] == Close && Run(steps[..k], dispatch).c.processing
  }

  ghost predicate WasClosed(steps: seq<Step>, dispatch: Frame -> Dispatch) {
    exists k: nat :: ClosedAt(steps, dispatch, k)
  }

  /** The input is cancelled iff the client was closed at some time while it was processing messages. */
  lemma {:induction false} CancelledIffClosed(steps: seq<Step>, dispatch: Frame -> Dispatch)
    ensures Run(steps, dispatch).c.cancelled <==> WasClosed(steps, dispatch)
  {
    if steps != [] {
      var n := |steps| - 1;
      var s := Run(steps[..n], dispatch);
      CancelledIffClosed(steps[..n], dispatch);
      NextCancelled(s, steps[n], dispatch);
      assert ClosedAt(steps, dispatch, n) <==> steps[n] == Close && s.c.processing;
      hide Next;
      forall k: nat | k < n
        ensures ClosedAt(steps, dispatch, k) <==> ClosedAt(steps[..n], dispatch, k)
      {
        assert steps[..n][..k] == steps[..k];
      }
      forall k: nat
        ensures ClosedAt(steps, dispatch, k) ==> k <= n
        ensures ClosedAt(steps[..n], dispatch, k) ==> k < n
      {
      }
      hide ClosedAt, Run;
    }
  }

  lemma NextCancelled(s: State, step: Step, dispatch: Frame -> Dispatch)
    ensures Next(s, step, dispatch).c.cancelled <==> s.c.cancelled || (step == Close && s.c.processing)
  {
    hide Decode, FindPending, AllFailed;
  }

  /** The stream begins with a message that the client makes something of. */
  ghost predicate BeginsWell(c: Client, stream: seq<byte>, dispatch: Frame -> Dispatch) {
    match Decode(stream)
    case Err(_) => false
    case Ok((f, _)) =>
      dispatch(f) == Notification || (dispatch(f).QueryResult? && FindPending(c.pending, f.tag) < |c.pending|)
  }

  /** A stopped client that connects again takes the first message of the new stream iff it was never closed
      while processing and the message is one it can use; otherwise the first read fails everything. */
  lemma ReconnectWorksIff(steps: seq<Step>, stream: seq<byte>, dispatch: Frame -> Dispatch)
    requires !Run(steps, dispatch).reading && !Run(steps, dispatch).c.processing
    ensures var c := Run(steps, dispatch).c;
            var t := Run(steps + [Establish(Some(stream)), ReadMessage], dispatch).c;
            && (|t.taken| == 1 <==> !WasClosed(steps, dispatch) && BeginsWell(c, stream, dispatch))
            && (|t.taken| == 1 ==> Decode(stream) == Ok((t.taken[0], t.input)))
            && (|t.taken| != 1 ==> !t.processing && t.taken == [] && t.pending == [])
  {
    CancelledIffClosed(steps, dispatch);
    RunAppend(steps, Establish(Some(stream)), dispatch);
    RunAppend(steps + [Establish(Some(stream))], ReadMessage, dispatch);
    assert steps + [Establish(Some(stream))] + [ReadMessage] == steps + [Establish(Some(stream)), ReadMessage];
    hide Run, Decode, WasClosed;
  }

  /** A run that ends so: connected, closed, and connected again to a stream that it could have used. */
  lemma ClosedClientFailsToReconnect(stream: seq<byte>, dispatch: Frame -> Dispatch)
    requires BeginsWell(NEW_CLIENT, stream, dispatch)
    ensures var steps := [Establish(Some([])), Close, ReadMessage];
            && Run(steps + [Establish(Some(stream)), ReadMessage], dispatch).c.taken == []
            && |Run([Establish(Some(stream)), ReadMessage], dispatch).c.taken| == 1
  {
    hide BeginsWell;
    var steps := [Establish(Some([])), Close, ReadMessage];
    ClosedRun(dispatch);
    hide Run;
    ReconnectWorksIff(steps, stream, dispatch);
    NewRun(stream, dispatch);
    ReconnectWorksIff([], stream, dispatch);
    assert [] + [Establish(Some(stream)), ReadMessage] == [Establish(Some(stream)), ReadMessage];
  }

  lemma ClosedRun(dispatch: Frame -> Dispatch)
    ensures var steps := [Establish(Some([])), Close, ReadMessage];
            && !Run(steps, dispatch).reading && !Run(steps, dispatch).c.processing && WasClosed(steps, dispatch)
  {
    hide Decode;
    var a := Establish(Some([]));
    var steps := [a, Close, ReadMessage];
    RunAppend([], a, dispatch);
    RunAppend([a], Close, dispatch);
    RunAppend([a, Close], ReadMessage, dispatch);
    assert [] + [a] == [a] && [a] + [Close] == [a, Close] && [a, Close] + [ReadMessage] == steps;
    assert Run([], dispatch) == START;
    CancelledIffClosed(steps, dispatch);
    hide Run, WasClosed;
  }

  lemma NewRun(stream: seq<byte>, dispatch: Frame -> Dispatch)
    ensures Run([], dispatch) == START && !WasClosed([], dispatch)
  {
    CancelledIffClosed([], dispatch);
  }
}
