/** The usbmux client: queries matched to replies by tag, failed all at once on a protocol error, and a mode
    switch that hands the stream to another owner. */
module FruityClient {
  import opened Outcomes
  import opened Sequences
  import opened PendingResponses
  import opened FruityFraming

  const PROTOCOL_ERROR := -1
  const SUCCESS := 0

  /** What a protocol version makes of a message: the result of a query, a device notification, or an error. */
  datatype Dispatch = QueryResult(result: int) | Notification | Rejected

  datatype Completion = Completion(query: nat, tag: nat, result: int)

  /** `input` is what the connection will still deliver; `queries` counts the queries ever made and
      `completed` records how they ended. The last four fields are history: what the connection delivers in
      all, the messages taken from it, the tag of the last mode-switch query, and the queries forgotten. */
  datatype Client = Client(
    processing: bool,
    lastTag: nat,
    modeSwitchTag: nat,
    pending: seq<Pending<nat>>,
    cancelled: bool,
    input: seq<byte>,
    queries: nat,
    completed: seq<Completion>,
    stream: seq<byte>,
    taken: seq<Frame>,
    lastModeSwitch: nat,
    dropped: set<nat>)

  const NEW_CLIENT := Client(false, 1, 0, [], false, [], 0, [], [], [], 0, {})

  /** The connection is open and its message loop starts. */
  function Established(c: Client, stream: seq<byte>): Client {
    c.(processing := true, input := stream, stream := stream, taken := [])
  }

  function Queries(pending: seq<Pending<nat>>): (qs: set<nat>)
    ensures forall q :: q in qs <==> exists i :: 0 <= i < |pending| && pending[i].query == q
  {
    set i | 0 <= i < |pending| :: pending[i].query
  }

  /** `reset`: what was pending is not completed. */
  function Reset(c: Client): Client {
    c.(processing := false, lastTag := 1, modeSwitchTag := 0, pending := [], lastModeSwitch := 0, input := [],
       stream := [], taken := [])
  }

  /** Connecting fails: the client is reset, and queries that an earlier mode switch left waiting are forgotten. */
  function Unconnected(c: Client): Client {
    Reset(c).(dropped := c.dropped + Queries(c.pending))
  }

  /** A query up to where it suspends. */
  function Asked(c: Client, modeSwitch: bool): Client {
    c.(lastTag := c.lastTag + 1,
       modeSwitchTag := if modeSwitch then c.lastTag else c.modeSwitchTag,
       lastModeSwitch := if modeSwitch then c.lastTag else c.lastModeSwitch,
       pending := c.pending + [Pending(c.lastTag, c.queries)],
       queries := c.queries + 1)
  }

  /** `handle_result_message` for a tag that is pending. */
  function Resolved(c: Client, tag: nat, result: int): Client
    requires FindPending(c.pending, tag) < |c.pending|
  {
    var i := FindPending(c.pending, tag);
    c.(pending := c.pending[..i] + c.pending[i + 1..],
       completed := c.completed + [Completion(c.pending[i].query, tag, result)],
       processing := c.processing && !(tag == c.modeSwitchTag && result == SUCCESS),
       modeSwitchTag := if tag == c.modeSwitchTag && result != SUCCESS then 0 else c.modeSwitchTag)
  }

  function AllFailed(pending: seq<Pending<nat>>): (cs: seq<Completion>)
    ensures |cs| == |pending|
    ensures forall i :: 0 <= i < |pending| ==> cs[i] == Completion(pending[i].query, pending[i].id, PROTOCOL_ERROR)
  {
    seq(|pending|, i requires 0 <= i < |pending| => Completion(pending[i].query, pending[i].id, PROTOCOL_ERROR))
  }

  /** An error: every pending query fails and the client is reset, dropping the connection. */
  function Failed(c: Client): Client {
    Reset(c.(completed := c.completed + AllFailed(c.pending)))
  }

  /** A message has been read: `Err` where `dispatch_message` throws. */
  function Dispatched(c: Client, tag: nat, d: Dispatch): Result<Client, ()> {
    match d
    case Rejected => Err(())
    case Notification => Ok(c)
    case QueryResult(result) =>
      if FindPending(c.pending, tag) == |c.pending| then Err(()) else Ok(Resolved(c, tag, result))
  }

  /** One turn of the message loop. */
  function Turn(c: Client, dispatch: Frame -> Dispatch): Client {
    if c.cancelled then Failed(c)
    else
      match Decode(c.input)
      case Err(_) => Failed(c)
      case Ok((f, rest)) =>
        match Dispatched(c.(input := rest, taken := c.taken + [f]), f.tag, dispatch(f))
        case Err(_) => Failed(c)
        case Ok(t) => t
  }

  /** The message loop with no other activity. */
  function Loop(c: Client, dispatch: Frame -> Dispatch): Client
    decreases c.processing, |c.input|
  {
    if !c.processing then c else Loop(Turn(c, dispatch), dispatch)
  }

  lemma NothingToFlatten()
    ensures Flatten<byte>([]) == []
  {
  }

  class FruityClient {
    var isProcessingMessages: bool
    var lastTag: nat
    var modeSwitchTag: nat
    var pendingResponses: seq<Pending<nat>>
    var inputCancelled: bool
    var input: SocketInput
    const dispatch: Frame -> Dispatch
    var queries: nat
    ghost var completed: seq<Completion>
    ghost var stream: seq<byte>
    ghost var taken: seq<Frame>
    ghost var lastModeSwitch: nat
    ghost var dropped: set<nat>

    ghost predicate Valid()
      reads this, input
    {
      input.Valid()
    }

    ghost function View(): Client
      reads this, input
    {
      Client(isProcessingMessages, lastTag, modeSwitchTag, pendingResponses, inputCancelled, input.Remaining(),
             queries, completed, stream, taken, lastModeSwitch, dropped)
    }

    constructor (dispatch: Frame -> Dispatch)
      ensures Valid() && View() == NEW_CLIENT && this.dispatch == dispatch && fresh(input)
    {
      this.dispatch := dispatch;
      isProcessingMessages, lastTag, modeSwitchTag, pendingResponses := false, 1, 0, [];
      inputCancelled := false;
      input := new SocketInput([]);
      queries, completed, stream, taken, lastModeSwitch, dropped := 0, [], [], [], 0, {};
    }

    /** `reset`, on construction and whenever the connection is given up. */
    method ResetFields()
      modifies this
      ensures Valid() && fresh(input) && View() == Reset(old(View()))
      ensures !isProcessingMessages && lastTag == 1 && modeSwitchTag == 0 && pendingResponses == []
    {
      isProcessingMessages, lastTag, modeSwitchTag, pendingResponses := false, 1, 0, [];
      lastModeSwitch, stream, taken := 0, [], [];
      NothingToFlatten();
      hide Flatten, SocketInput.Remaining;
      input := new SocketInput([]);
    }

    /** `connection` is what connecting gives, if it succeeds; false where `establish` throws. */
    method Establish(connection: Option<seq<seq<byte>>>) returns (ok: bool)
      requires !isProcessingMessages && (connection.Some? ==> forall c <- connection.value :: c != [])
      modifies this
      ensures Valid() && fresh(input) && ok == connection.Some?
      ensures View() == match connection
                        case Some(chunks) => Established(old(View()), Flatten(chunks))
                        case None => Unconnected(old(View()))
      ensures isProcessingMessages == ok
      ensures if ok then lastTag == old(lastTag) && modeSwitchTag == old(modeSwitchTag)
                         && pendingResponses == old(pendingResponses) && input.Remaining() == Flatten(connection.value)
              else lastTag == 1 && modeSwitchTag == 0 && pendingResponses == []
    {
      if connection == None {
        dropped := dropped + Queries(pendingResponses);
        ResetFields();
        return false;
      }
      input := new SocketInput(connection.value);
      isProcessingMessages := true;
      stream, taken := Flatten(connection.value), [];
      return true;
    }

    /** `query` up to its suspension; the message goes out in one write. */
    method Query(messageType: uint32, body: seq<byte>, isModeSwitchRequest: bool, protocolVersion: uint32)
      returns (blob: seq<byte>)
      requires Valid() && isProcessingMessages && 16 + |body| < 0x1_0000_0000 && lastTag < 0x1_0000_0000
      modifies this
      ensures Valid() && input == old(input) && View() == Asked(old(View()), isModeSwitchRequest)
      ensures blob == CreateMessage(protocolVersion, Frame(messageType, old(lastTag), body))
      ensures IsMessage(blob, protocolVersion, Frame(messageType, old(lastTag), body))
      ensures lastTag == old(lastTag) + 1
      ensures pendingResponses == old(pendingResponses) + [Pending(old(lastTag), old(queries))]
      ensures modeSwitchTag == if isModeSwitchRequest then old(lastTag) else old(modeSwitchTag)
    {
      var tag := lastTag;
      lastTag := lastTag + 1;
      if isModeSwitchRequest {
        modeSwitchTag := tag;
        lastModeSwitch := tag;
      }
      blob := CreateMessage(protocolVersion, Frame(messageType, tag, body));
      pendingResponses := pendingResponses + [Pending(tag, queries)];
      queries := queries + 1;
      CreatedIsMessage(protocolVersion, Frame(messageType, tag, body));
    }

    method HandleResultMessage(tag: nat, result: int) returns (ok: bool)
      requires Valid()
      modifies this
      ensures Valid() && input == old(input)
      ensures match Dispatched(old(View()), tag, QueryResult(result))
              case Err(_) => !ok && View() == old(View())
              case Ok(c) => ok && View() == c
      ensures isProcessingMessages == (old(isProcessingMessages) && !(ok && tag == old(modeSwitchTag) && result == 0))
      ensures modeSwitchTag == if ok && tag == old(modeSwitchTag) && result != 0 then 0 else old(modeSwitchTag)
    {
      var i := 0;
      while i < |pendingResponses| && pendingResponses[i].id != tag
        invariant i <= FindPending(pendingResponses, tag)
      {
        i := i + 1;
      }
      hide FindPending, Flatten, SocketInput.Remaining, SocketInput.Valid;
      if i == |pendingResponses| {
        return false;
      }
      var match_ := pendingResponses[i];
      pendingResponses := pendingResponses[..i] + pendingResponses[i + 1..];
      completed := completed + [Completion(match_.query, tag, result)];
      if tag == modeSwitchTag {
        if result == SUCCESS {
          isProcessingMessages := false;
        } else {
          modeSwitchTag := 0;
        }
      }
      return true;
    }

    method DispatchMessage(msg: Frame) returns (ok: bool)
      requires Valid()
      modifies this
      ensures Valid() && input == old(input)
      ensures match Dispatched(old(View()), msg.tag, dispatch(msg))
              case Err(_) => !ok && View() == old(View())
              case Ok(c) => ok && View() == c
    {
      match dispatch(msg) {
        case QueryResult(result) => ok := HandleResultMessage(msg.tag, result);
        case Notification => ok := true;
        case Rejected => ok := false;
      }
    }

    /** The `catch` of the message loop. */
    method FailPending()
      requires Valid()
      modifies this
      ensures Valid() && fresh(input) && View() == Failed(old(View()))
      ensures !isProcessingMessages && lastTag == 1 && modeSwitchTag == 0 && pendingResponses == []
      ensures |completed| == |old(completed)| + |old(pendingResponses)| && old(completed) <= completed
      ensures forall i :: 0 <= i < |old(pendingResponses)| ==>
                var p := old(pendingResponses)[i];
                completed[|old(completed)| + i] == Completion(p.query, p.id, -1)
    {
      for i := 0 to |pendingResponses|
        modifies this`completed
        invariant completed == old(completed) + AllFailed(pendingResponses[..i])
      {
        completed := completed + [Completion(pendingResponses[i].query, pendingResponses[i].id, PROTOCOL_ERROR)];
      }
      assert pendingResponses[..|pendingResponses|] == pendingResponses;
      hide AllFailed, Reset;
      ResetFields();
    }

    method ProcessOneMessage()
      requires Valid() && isProcessingMessages
      modifies this, input
      ensures Valid() && (input == old(input) || fresh(input))
      ensures View() == Turn(old(View()), dispatch)
    {
      if inputCancelled {
        FailPending();
        return;
      }
      var msg := input.ReadMessage();
      if msg.Err? {
        FailPending();
        return;
      }
      taken := taken + [msg.value];
      var ok := DispatchMessage(msg.value);
      if !ok {
        FailPending();
      }
    }

    /** `process_incoming_messages`, as long as nothing else uses the client. */
    method ProcessIncomingMessages()
      requires Valid()
      modifies this, input
      ensures Valid() && View() == Loop(old(View()), dispatch) && !isProcessingMessages
    {
      while isProcessingMessages
        invariant Valid() && (input == old(input) || fresh(input))
        invariant Loop(View(), dispatch) == Loop(old(View()), dispatch)
        decreases isProcessingMessages, |input.Remaining()|
      {
        ProcessOneMessage();
      }
    }

    /** `close` up to its suspension; false where it throws. */
    method Close() returns (ok: bool)
      requires Valid()
      modifies this`isProcessingMessages, this`inputCancelled
      ensures Valid() && ok == old(isProcessingMessages)
      ensures View() == if ok then old(View()).(processing := false, cancelled := true) else old(View())
      ensures !isProcessingMessages && inputCancelled == (ok || old(inputCancelled))
    {
      if !isProcessingMessages {
        return false;
      }
      isProcessingMessages := false;
      inputCancelled := true;
      return true;
    }

    /** One little-endian word of a message's header. */
    static method StoreWord(blob: array<byte>, p: nat, x: uint32)
      requires 4 * p + 4 <= blob.Length
      modifies blob
      ensures blob[..] == old(blob[..4 * p]) + Le32(x) + old(blob[4 * p + 4..])
    {
      var word := Le32(x);
      hide Le32;
      blob[4 * p], blob[4 * p + 1], blob[4 * p + 2], blob[4 * p + 3] := word[0], word[1], word[2], word[3];
      assert word == [word[0], word[1], word[2], word[3]];
    }

    /** `create_message`, filling a buffer. */
    static method BuildMessage(protocolVersion: uint32, f: Frame) returns (blob: array<byte>)
      requires 16 + |f.body| < 0x1_0000_0000
      ensures fresh(blob) && blob[..] == CreateMessage(protocolVersion, f)
      ensures IsMessage(blob[..], protocolVersion, f)
    {
      CreatedIsMessage(protocolVersion, f);
      hide Le32, IsMessage;
      blob := new byte[16 + |f.body|];
      StoreWord(blob, 0, 16 + |f.body|);
      assert blob[..4] == Le32(16 + |f.body|);
      StoreWord(blob, 1, protocolVersion);
      assert blob[..8] == Le32(16 + |f.body|) + Le32(protocolVersion);
      StoreWord(blob, 2, f.messageType);
      StoreWord(blob, 3, f.tag);
      assert blob[..16] == Le32(16 + |f.body|) + Le32(protocolVersion) + Le32(f.messageType) + Le32(f.tag);
      forall k | 0 <= k < |f.body| { blob[16 + k] := f.body[k]; }
      assert blob[..] == blob[..16] + f.body;
    }
  }
}
