/** The `PropertyList` object: typed access by key, `to_xml` and `from_xml`. */
module PropertyListDocument {
  import opened Outcomes
  import opened PropertyLists
  import W = PropertyListWriter
  import P = PropertyListParser
  import opened Markup
  import opened PropertyListRoundTrip

  datatype AccessError = NoSuchKey | TypeMismatch

  datatype Kind = StringKind | IntKind | UIntKind | DictKind

  function KindOf(v: Value): Kind {
    match v
    case Str(_) => StringKind
    case Int(_) => IntKind
    case UInt(_) => UIntKind
    case Dict(_) => DictKind
  }

  function Lookup(m: map<string, Value>, key: string, kind: Kind): (r: Result<Value, AccessError>)
    ensures r.Ok? <==> key in m && KindOf(m[key]) == kind
    ensures r.Ok? ==> r.value == m[key]
    ensures r == Err(NoSuchKey) <==> key !in m
  {
    if key !in m then Err(NoSuchKey)
    else if KindOf(m[key]) != kind then Err(TypeMismatch)
    else Ok(m[key])
  }

  class PropertyList {
    var valueByKey: map<string, Value>

    constructor ()
      ensures valueByKey == map[]
    {
      valueByKey := map[];
    }

    method SetValue(key: string, v: Value)
      modifies this
      ensures valueByKey == old(valueByKey)[key := v]
    {
      valueByKey := valueByKey[key := v];
    }

    method GetValue(key: string, kind: Kind) returns (r: Result<Value, AccessError>)
      ensures r == Lookup(valueByKey, key, kind)
    {
      if key !in valueByKey {
        return Err(NoSuchKey);
      }
      var val := valueByKey[key];
      if KindOf(val) != kind {
        return Err(TypeMismatch);
      }
      return Ok(val);
    }

    method ToXml() returns (xml: string)
      ensures xml == W.ToXml(Dict(valueByKey))
    {
      var writer := new W.XmlWriter();
      writer.Write(Dict(valueByKey));
      xml := writer.builder;
    }

    /** `from_xml` on a fresh object. */
    method ReadXml(entities: EntityTable, xml: string) returns (error: Option<P.ParseError>)
      modifies this
      ensures match P.FromXml(entities, xml)
              case Ok(d) => error == None && Dict(valueByKey) == d
              case Err(e) => error == Some(e) && valueByKey == old(valueByKey)
    {
      var parser := new P.XmlParser();
      parser.Parse(entities, xml);
      error := parser.failure;
      if error == None {
        valueByKey := P.Collapse(P.State(parser.root, parser.stack, parser.currentPair));
      }
    }
  }

  /** What a caller sees of a plain list after a round trip: every key is there, strings and ints are as written,
      a child list is what it reads as, and an unsigned value answers to `get_int`, whose cast to `uint` recovers
      it, and no longer to `get_uint`. */
  ghost predicate SameAccess(m: map<string, Value>, read: map<string, Value>, key: string) {
    && Lookup(read, key, StringKind) == Lookup(m, key, StringKind)
    && (key in m && m[key].Int? ==> Lookup(read, key, IntKind) == Lookup(m, key, IntKind))
    && (key in m && m[key].UInt? ==>
          Lookup(read, key, IntKind) == Ok(Int(ToInt32(m[key].u))) && ToUInt32(ToInt32(m[key].u)) == m[key].u)
    && Lookup(read, key, UIntKind) == Err(if key in m then TypeMismatch else NoSuchKey)
    && Lookup(read, key, DictKind) == if key in m && m[key].Dict? then Ok(AsRead(m[key])) else Lookup(m, key, DictKind)
  }

  lemma AccessAsRead(m: map<string, Value>, key: string)
    ensures SameAccess(m, AsReadAll(Dict(m)), key)
  {
    if key in m && m[key].UInt? { CastRoundTrip(m[key].u); }
    hide ToInt32, ToUInt32;
  }

  lemma {:induction false} AccessAfterRoundTrip(entities: EntityTable, d: Value, read: Value, key: string)
    requires d.Dict? && read.Dict? && Plain(d) && P.FromXml(entities, W.ToXml(d)) == Ok(read)
    ensures SameAccess(d.entries, read.entries, key)
  {
    hide P.FromXml, W.ToXml, Plain, SameAccess;
    PlainIsRead(entities, d);
    AccessAsRead(d.entries, key);
  }
}
