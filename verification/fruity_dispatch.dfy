/** The two protocol versions: what each makes of a message, and the property lists version 1 carries. */
module FruityDispatch {
  import opened Outcomes
  import opened FruityFraming
  import opened FruityClient
  import opened PropertyLists
  import opened Markup
  import W = PropertyListWriter
  import P = PropertyListParser
  import D = PropertyListDocument
  import opened PropertyListExactness

  const RESULT: uint32 := 1
  const DEVICE_ATTACHED: uint32 := 4
  const DEVICE_DETACHED: uint32 := 5
  const PROPERTY_LIST: uint32 := 8

  /** `ClientV1.dispatch_message`. */
  function DispatchV1(f: Frame): Dispatch {
    if f.messageType == RESULT then
      if |f.body| != 4 then Rejected else QueryResult(ToInt32(FromLe32(f.body)))
    else if f.messageType == DEVICE_ATTACHED then
      if |f.body| < 4 then Rejected else Notification
    else if f.messageType == DEVICE_DETACHED then
      if |f.body| != 4 then Rejected else Notification
    else Rejected
  }

  /** The C string a body holds, one character a byte. */
  function CString(body: seq<byte>): string {
    if body == [] || body[0] == 0 then "" else [body[0] as char] + CString(body[1..])
  }

  predicate Has(m: map<string, Value>, key: string, kind: D.Kind) {
    D.Lookup(m, key, kind).Ok?
  }

  /** What `device_attached` and `device_detached` are called with. */
  datatype DeviceEvent = Attached(deviceId: uint32, udid: string) | Detached(deviceId: uint32)

  /** The device notification in a body that has been parsed. */
  function EventIn(m: map<string, Value>): Option<DeviceEvent> {
    if !Has(m, "MessageType", D.StringKind) || !Has(m, "DeviceID", D.IntKind) then None
    else
      var deviceId := ToUInt32(m["DeviceID"].i);
      var messageType := m["MessageType"].s;
      if messageType == "Attached" then
        if Has(m, "Properties", D.DictKind) && Has(m["Properties"].entries, "SerialNumber", D.StringKind)
        then Some(Attached(deviceId, m["Properties"].entries["SerialNumber"].s))
        else None
      else if messageType == "Detached" then Some(Detached(deviceId))
      else None
  }

  /** `ClientV2.dispatch_message` for a body that has been parsed. */
  function DispatchList(m: map<string, Value>): Dispatch {
    if Has(m, "MessageType", D.StringKind) && m["MessageType"].s == "Result" then
      if Has(m, "Number", D.IntKind) then QueryResult(m["Number"].i) else Rejected
    else if EventIn(m).Some? then Notification
    else Rejected
  }

  /** The device notification a message leads to. */
  function EventV2(entities: EntityTable, f: Frame): Option<DeviceEvent> {
    if f.messageType != PROPERTY_LIST || f.body == [] then None
    else
      match P.FromXml(entities, CString(f.body))
      case Ok(Dict(m)) => EventIn(m)
      case _ => None
  }

  function DispatchV2(entities: EntityTable, f: Frame): Dispatch {
    if f.messageType != PROPERTY_LIST || f.body == [] then Rejected
    else
      match P.FromXml(entities, CString(f.body))
      case Ok(Dict(m)) => DispatchList(m)
      case _ => Rejected
  }

  /** Protocol version 0: a reply (1) with a body of four bytes is the signed number they hold, the lowest byte
      first; an attached (4) or detached (5) device with a body long enough is a notification; everything else is
      refused. */
  lemma {:induction false} ResultV1(f: Frame)
    ensures match DispatchV1(f)
            case QueryResult(n) =>
              && f.messageType == 1 && |f.body| == 4
              && n == (if Word(f.body, 0) < 0x8000_0000 then Word(f.body, 0) else Word(f.body, 0) - 0x1_0000_0000)
            case Notification => (f.messageType == 4 && |f.body| >= 4) || (f.messageType == 5 && |f.body| == 4)
            case Rejected =>
              && !(f.messageType == 1 && |f.body| == 4)
              && !(f.messageType == 4 && |f.body| >= 4) && !(f.messageType == 5 && |f.body| == 4)
  {
    if |f.body| == 4 {
      WordAfter([], f.body, []);
      assert [] + f.body + [] == f.body;
      SignedWord(FromLe32(f.body));
    }
    hide FromLe32, Word, ToInt32;
  }

  lemma SignedWord(w: uint32)
    ensures ToInt32(w) == if w < 0x8000_0000 then w else w - 0x1_0000_0000
  {
  }

  // ---- Messages of protocol version 1 hold a property list as XML.

  /** The body holds the list, however its XML is laid out: it is read as it, with signed numbers. */
  predicate Holds(entities: EntityTable, body: seq<byte>, list: Value) {
    list.Dict? && body != [] && P.FromXml(entities, CString(body)) == Ok(AsRead(list))
  }

  /** A body holds what this program writes for a list exactly if the text is plain; no matter which list. */
  lemma {:induction false} WrittenIsHeldIff(entities: EntityTable, body: seq<byte>, list: Value)
    requires list.Dict? && CString(body) == W.ToXml(list)
    ensures Holds(entities, body, list) <==> Plain(list)
  {
    hide Plain, AsRead, P.FromXml;
    ReadIffPlain(entities, list);
    hide W.ToXml;
    WrittenIsNotEmpty(list);
  }

  lemma WrittenIsNotEmpty(list: Value)
    requires list.Dict?
    ensures W.ToXml(list) != ""
  {
  }

  /** The list has the value under the key; what else it has does not matter. */
  predicate Binds(list: Value, key: string, value: Value) {
    list.Dict? && key in list.entries && list.entries[key] == value
  }

  lemma BindsAsRead(list: Value, key: string, value: Value)
    requires Binds(list, key, value)
    ensures Binds(AsRead(list), key, AsRead(value))
  {
  }

  predicate IsReply(list: Value, number: Value) {
    Binds(list, "MessageType", Str("Result")) && Binds(list, "Number", number)
  }

  predicate IsAttached(list: Value, deviceId: uint32, properties: Value, udid: string) {
    Binds(list, "MessageType", Str("Attached")) && Binds(list, "DeviceID", UInt(deviceId))
    && Binds(list, "Properties", properties) && Binds(properties, "SerialNumber", Str(udid))
  }

  predicate IsDetached(list: Value, deviceId: uint32) {
    Binds(list, "MessageType", Str("Detached")) && Binds(list, "DeviceID", UInt(deviceId))
  }

  /** A reply: its number is the result, as the `int` that keeps its low 32 bits. */
  lemma {:induction false} ResultV2(entities: EntityTable, tag: uint32, list: Value, number: Value, body: seq<byte>)
    requires number.Int? || number.UInt?
    requires IsReply(list, number) && Holds(entities, body, list)
    ensures DispatchV2(entities, Frame(8, tag, body))
         == QueryResult(if number.Int? then number.i else ToInt32(number.u))
  {
    hide P.FromXml, CString;
    BindsAsRead(list, "MessageType", Str("Result"));
    BindsAsRead(list, "Number", number);
    hide ToInt32;
  }

  /** Every 32-bit device id arrives: what the parser makes a negative `int`, the cast to `uint` recovers. */
  lemma {:induction false} AttachedIdRecovered(entities: EntityTable, tag: uint32, list: Value, deviceId: uint32,
                                               properties: Value, udid: string, body: seq<byte>)
    requires IsAttached(list, deviceId, properties, udid) && Holds(entities, body, list)
    ensures EventV2(entities, Frame(8, tag, body)) == Some(Attached(deviceId, udid))
    ensures DispatchV2(entities, Frame(8, tag, body)) == Notification
  {
    hide P.FromXml, CString;
    MessageTypesDiffer();
    CastRoundTrip(deviceId);
    hide ToInt32, ToUInt32;
    BindsAsRead(list, "MessageType", Str("Attached"));
    BindsAsRead(list, "DeviceID", UInt(deviceId));
    BindsAsRead(list, "Properties", properties);
    BindsAsRead(properties, "SerialNumber", Str(udid));
  }

  lemma {:induction false} DetachedIdRecovered(entities: EntityTable, tag: uint32, list: Value, deviceId: uint32,
                                               body: seq<byte>)
    requires IsDetached(list, deviceId) && Holds(entities, body, list)
    ensures EventV2(entities, Frame(8, tag, body)) == Some(Detached(deviceId))
    ensures DispatchV2(entities, Frame(8, tag, body)) == Notification
  {
    hide P.FromXml, CString;
    MessageTypesDiffer();
    CastRoundTrip(deviceId);
    hide ToInt32, ToUInt32;
    BindsAsRead(list, "MessageType", Str("Detached"));
    BindsAsRead(list, "DeviceID", UInt(deviceId));
  }

  lemma MessageTypesDiffer()
    ensures "Attached" != "Result" && "Detached" != "Result" && "Attached" != "Detached"
  {
    assert |"Result"| == 6;
    assert "Attached"[0] == 'A' && "Detached"[0] == 'D';
  }

  /** The value is there and of the kind, in a list as it has been read. */
  predicate HasInt(list: Value, key: string) {
    list.Dict? && key in list.entries && list.entries[key].Int?
  }

  predicate HasSerial(list: Value) {
    && list.Dict? && "Properties" in list.entries && list.entries["Properties"].Dict?
    && "SerialNumber" in list.entries["Properties"].entries
    && list.entries["Properties"].entries["SerialNumber"].Str?
  }

  /** Which version-1 messages are taken, and as what: `list` is what the parser reads in the body. */
  lemma {:induction false} TakenV2Iff(entities: EntityTable, f: Frame, list: Value)
    requires f.body != [] && list.Dict? && P.FromXml(entities, CString(f.body)) == Ok(list)
    ensures DispatchV2(entities, f).QueryResult? <==>
              f.messageType == 8 && Binds(list, "MessageType", Str("Result")) && HasInt(list, "Number")
    ensures DispatchV2(entities, f) == Notification <==>
              && f.messageType == 8 && HasInt(list, "DeviceID")
              && ((Binds(list, "MessageType", Str("Attached")) && HasSerial(list))
                  || Binds(list, "MessageType", Str("Detached")))
  {
    hide P.FromXml, CString;
    MessageTypesDiffer();
  }

  /** A message that is no property list, is empty or cannot be parsed is refused. */
  lemma {:induction false} UnreadableIsRefused(entities: EntityTable, f: Frame)
    requires f.messageType != 8 || f.body == [] || P.FromXml(entities, CString(f.body)).Err?
    ensures DispatchV2(entities, f) == Rejected && EventV2(entities, f) == None
  {
    hide P.FromXml, CString;
  }

  /** A body is read up to its first zero byte. */
  lemma {:induction false} CStringIs(body: seq<byte>)
    ensures |CString(body)| <= |body| && (|CString(body)| < |body| ==> body[|CString(body)|] == 0)
    ensures forall i :: 0 <= i < |CString(body)| ==> CString(body)[i] == body[i] as char && body[i] != 0
  {
    if body != [] && body[0] != 0 { CStringIs(body[1..]); }
  }
}
