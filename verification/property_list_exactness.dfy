/** Only faithful property lists survive a round trip. Every markup character in a parsed string was spelled
    with an entity, every entity uses up a semicolon of the document, and the only semicolons the writer
    emits are those of the strings; so a list that comes back unchanged has no markup character to spare. */
module PropertyListExactness {
  import opened Outcomes
  import opened Decimals
  import opened PropertyLists
  import opened PropertyListWriter
  import opened Markup
  import opened PropertyListParser
  import opened PropertyListRoundTrip

  const MARKUP: set<char> := {'<', '&', '\r'}
  const SEMICOLON: set<char> := {';'}
  const COUNTED: set<char> := {'<', '&', '\r', ';'}

  // ---- Counting characters in strings and trees.

  ghost function Count(s: string, cs: set<char>): nat {
    if s == "" then 0 else (if s[0] in cs then 1 else 0) + Count(s[1..], cs)
  }

  lemma {:induction false} CountConcat(a: string, b: string, cs: set<char>)
    ensures Count(a + b, cs) == Count(a, cs) + Count(b, cs)
  {
    if a == "" {
      assert a + b == b;
    } else {
      assert (a + b)[1..] == a[1..] + b;
      CountConcat(a[1..], b, cs);
    }
  }

  lemma {:induction false} CountNone(s: string, cs: set<char>)
    ensures Count(s, cs) == 0 <==> forall c <- s :: c !in cs
  {
    if s != "" {
      CountNone(s[1..], cs);
      assert s[0] in s && forall c <- s :: c == s[0] || c in s[1..];
      assert forall c <- s[1..] :: c in s;
    }
  }

  /** Occurrences of `cs` in all keys and strings of a tree. */
  ghost function Total(v: Value, cs: set<char>): nat
    decreases v, 1, 0
  {
    match v
    case Str(s) => Count(s, cs)
    case Dict(e) => TotalOf(v, e.Keys, cs)
    case _ => 0
  }

  ghost function TotalOf(d: Value, ks: set<string>, cs: set<char>): nat
    requires d.Dict? && ks <= d.entries.Keys
    decreases d, 0, |ks|
  {
    if ks == {} then 0
    else
      var k :| k in ks;
      Count(k, cs) + Total(d.entries[k], cs) + TotalOf(d, ks - {k}, cs)
  }

  lemma {:induction false} TotalSplit(d: Value, ks: set<string>, k: string, cs: set<char>)
    requires d.Dict? && ks <= d.entries.Keys && k in ks
    ensures TotalOf(d, ks, cs) == Count(k, cs) + Total(d.entries[k], cs) + TotalOf(d, ks - {k}, cs)
    decreases |ks|
  {
    var j :| j in ks && TotalOf(d, ks, cs) == Count(j, cs) + Total(d.entries[j], cs) + TotalOf(d, ks - {j}, cs);
    if j != k {
      TotalSplit(d, ks - {j}, k, cs);
      TotalSplit(d, ks - {k}, j, cs);
      assert ks - {j} - {k} == ks - {k} - {j};
    }
  }

  lemma {:induction false} TotalSame(d: Value, e: Value, ks: set<string>, cs: set<char>)
    requires d.Dict? && e.Dict? && ks <= d.entries.Keys && ks <= e.entries.Keys
    requires forall k <- ks :: Total(d.entries[k], cs) == Total(e.entries[k], cs)
    ensures TotalOf(d, ks, cs) == TotalOf(e, ks, cs)
    decreases |ks|
  {
    if ks != {} {
      var k :| k in ks;
      TotalSplit(d, ks, k, cs);
      TotalSplit(e, ks, k, cs);
      TotalSame(d, e, ks - {k}, cs);
    }
  }

  lemma TotalPut(m: map<string, Value>, k: string, v: Value, cs: set<char>)
    ensures Total(Dict(m[k := v]), cs) <= Total(Dict(m), cs) + Count(k, cs) + Total(v, cs)
  {
    var d, e := Dict(m), Dict(m[k := v]);
    TotalSplit(e, e.entries.Keys, k, cs);
    TotalSame(d, e, m.Keys - {k}, cs);
    assert e.entries.Keys - {k} == m.Keys - {k};
    if k in m {
      TotalSplit(d, m.Keys, k, cs);
    } else {
      assert m.Keys - {k} == m.Keys;
    }
  }

  lemma {:induction false} TotalUnion(v: Value, a: set<char>, b: set<char>)
    requires a !! b
    ensures Total(v, a + b) == Total(v, a) + Total(v, b)
    decreases v, 1, 0
  {
    match v
    case Str(s) => CountUnion(s, a, b);
    case Dict(e) => TotalOfUnion(v, e.Keys, a, b);
    case _ =>
  }

  lemma {:induction false} TotalOfUnion(d: Value, ks: set<string>, a: set<char>, b: set<char>)
    requires a !! b && d.Dict? && ks <= d.entries.Keys
    ensures TotalOf(d, ks, a + b) == TotalOf(d, ks, a) + TotalOf(d, ks, b)
    decreases d, 0, |ks|
  {
    if ks != {} {
      var k :| k in ks;
      TotalSplit(d, ks, k, a);
      TotalSplit(d, ks, k, b);
      TotalSplit(d, ks, k, a + b);
      CountUnion(k, a, b);
      TotalUnion(d.entries[k], a, b);
      TotalOfUnion(d, ks - {k}, a, b);
    }
  }

  lemma {:induction false} CountUnion(s: string, a: set<char>, b: set<char>)
    requires a !! b
    ensures Count(s, a + b) == Count(s, a) + Count(s, b)
  {
    if s != "" { CountUnion(s[1..], a, b); }
  }

  lemma {:induction false} TotalAsRead(v: Value, cs: set<char>)
    ensures Total(AsRead(v), cs) == Total(v, cs)
  {
    if v.Dict? {
      forall k <- v.entries ensures Total(AsRead(v.entries[k]), cs) == Total(v.entries[k], cs) {
        TotalAsRead(v.entries[k], cs);
      }
      assert AsReadAll(v).Keys == v.entries.Keys;
      TotalSame(AsRead(v), v, v.entries.Keys, cs);
    }
  }

  // ---- What the writer emits.

  lemma {:induction false} TabsCount(level: nat)
    ensures Count(Tabs(level), SEMICOLON) == 0
  {
    if level > 0 { TabsCount(level - 1); CountConcat("\t", Tabs(level - 1), SEMICOLON); }
  }

  lemma LineCount(level: nat, content: string)
    ensures Count(Line(level, content), SEMICOLON) == Count(content, SEMICOLON)
  {
    TabsCount(level);
    CountConcat(Tabs(level), content, SEMICOLON);
    CountConcat(Tabs(level) + content, "\n", SEMICOLON);
  }

  lemma TagCount(name: string, content: string)
    requires ';' !in name
    ensures Count(Tag(name, content), SEMICOLON) == Count(content, SEMICOLON)
  {
    var start, end := "<" + name + ">", "</" + name + ">";
    assert Tag(name, content) == start + content + end;
    CountNone(start, SEMICOLON);
    CountNone(end, SEMICOLON);
    CountConcat(start, content, SEMICOLON);
    CountConcat(start + content, end, SEMICOLON);
  }

  lemma TaggedLineCount(level: nat, name: string, content: string)
    requires ';' !in name
    ensures Count(Line(level, Tag(name, content)), SEMICOLON) == Count(content, SEMICOLON)
  {
    TagCount(name, content);
    LineCount(level, Tag(name, content));
  }

  lemma {:induction false} ValueCount(level: nat, v: Value)
    ensures Count(ValueText(level, v), SEMICOLON) == Total(v, SEMICOLON)
    decreases v, 2
  {
    match v
    case Str(s) => TaggedLineCount(level, "string", s);
    case Int(i) => IntegerCount(level, i);
    case UInt(u) => IntegerCount(level, u);
    case Dict(_) => DictCount(level, v);
  }

  lemma IntegerCount(level: nat, i: int)
    ensures Count(Line(level, Tag("integer", PrintInt(i))), SEMICOLON) == 0
  {
    var digits := PrintNat(if i < 0 then -i else i);
    assert forall c <- PrintInt(i) :: c == '-' || (c in digits && IsDigit(c));
    CountNone(PrintInt(i), SEMICOLON);
    TaggedLineCount(level, "integer", PrintInt(i));
  }

  lemma {:induction false} DictCount(level: nat, d: Value)
    requires d.Dict?
    ensures Count(DictText(level, d), SEMICOLON) == Total(d, SEMICOLON)
    decreases d, 1
  {
    hide Line, EntriesText, Count;
    var keys := SortedKeys(d.entries.Keys);
    var before, entries, after := Line(level, "<dict>"), EntriesText(level + 1, d, keys), Line(level, "</dict>");
    EntriesCount(level + 1, d, keys);
    assert (set k | k in keys) == d.entries.Keys;
    LineCount(level, "<dict>");
    LineCount(level, "</dict>");
    CountNone("<dict>", SEMICOLON);
    CountNone("</dict>", SEMICOLON);
    assert DictText(level, d) == before + entries + after;
    CountConcat(before, entries, SEMICOLON);
    CountConcat(before + entries, after, SEMICOLON);
  }

  lemma {:induction false} EntriesCount(level: nat, d: Value, keys: seq<string>)
    requires d.Dict? && forall k <- keys :: k in d.entries
    requires forall i, j :: 0 <= i < j < |keys| ==> keys[i] != keys[j]
    ensures Count(EntriesText(level, d, keys), SEMICOLON) == TotalOf(d, (set k | k in keys), SEMICOLON)
    decreases d, 0, |keys|
  {
    hide Line, Tag;
    var ks := set k | k in keys;
    if keys != [] {
      var key, value := Line(level, Tag("key", keys[0])), ValueText(level, d.entries[keys[0]]);
      var tail := EntriesText(level, d, keys[1..]);
      CountConcat(key, value, SEMICOLON);
      CountConcat(key + value, tail, SEMICOLON);
      TaggedLineCount(level, "key", keys[0]);
      ValueCount(level, d.entries[keys[0]]);
      EntriesCount(level, d, keys[1..]);
      TotalSplit(d, ks, keys[0], SEMICOLON);
      assert ks - {keys[0]} == set k | k in keys[1..];
    }
  }

  /** The semicolons of a written document are those of its keys and strings. */
  lemma XmlCount(d: Value)
    requires d.Dict?
    ensures Count(ToXml(d), SEMICOLON) == Total(d, SEMICOLON)
  {
    hide Line, DictText;
    var a, b, c := Line(0, XML_DECLARATION), Line(0, DOCTYPE), Line(0, PLIST_START);
    var text, end := DictText(0, d), Line(0, PLIST_END);
    LineCount(0, XML_DECLARATION);
    LineCount(0, DOCTYPE);
    LineCount(0, PLIST_START);
    LineCount(0, PLIST_END);
    DictCount(0, d);
    ConstantsCount();
    CountConcat(a, b, SEMICOLON);
    CountConcat(a + b, c, SEMICOLON);
    CountConcat(a + b + c, text, SEMICOLON);
    CountConcat(a + b + c + text, end, SEMICOLON);
  }

  lemma Absent3(a: string, b: string, c: string)
    requires ';' !in a && ';' !in b && ';' !in c
    ensures Count(a + b + c, SEMICOLON) == 0
  {
    CountNone(a + b + c, SEMICOLON);
  }

  lemma DoctypeCount()
    ensures Count(DOCTYPE, SEMICOLON) == 0
  {
    DoctypeIsPlain();
    hide Count, DOCTYPE_BODY;
    Absent3("<", DOCTYPE_BODY, ">");
  }

  lemma ConstantsCount()
    ensures Count(XML_DECLARATION, SEMICOLON) == Count(DOCTYPE, SEMICOLON) == 0
    ensures Count(PLIST_START, SEMICOLON) == Count(PLIST_END, SEMICOLON) == 0
  {
    hide Count, DOCTYPE;
    Absent3("<?", DECLARATION_BODY, "?>");
    DoctypeCount();
    Absent3("<plist", PLIST_ATTRIBUTES, ">");
    CountNone(PLIST_END, SEMICOLON);
  }

  // ---- What the parser makes of it.

  lemma {:induction false} UnescapeCount(entities: EntityTable, raw: string)
    requires '<' !in raw && Unescape(entities, raw).Some?
    ensures Count(Unescape(entities, raw).value, COUNTED) <= Count(raw, SEMICOLON)
    decreases |raw|
  {
    hide Cut, Count;
    if raw == "" {
      CountNone("", COUNTED);
    } else if raw[0] == '&' {
      var (name, after) := Cut(raw[1..], ";").value;
      assert raw == ("&" + name) + ";" + after;
      UnescapeStep(raw, "&" + name, ";", after);
      UnescapeCount(entities, after);
      PrefixedCount(entities(name).value, Unescape(entities, after).value);
    } else {
      var n := if raw[0] == '\r' && |raw| > 1 && raw[1] == '\n' then 2 else 1;
      assert raw == "" + raw[..n] + raw[n..];
      UnescapeStep(raw, "", raw[..n], raw[n..]);
      assert raw[0] in raw;
      if raw[0] == ';' { assert raw[..n] == ";"; }
      UnescapeCount(entities, raw[n..]);
      PrefixedCount(if raw[0] == '\r' then '\n' else raw[0], Unescape(entities, raw[n..]).value);
    }
  }

  lemma UnescapeStep(raw: string, a: string, b: string, after: string)
    requires raw == a + b + after
    ensures Count(raw, SEMICOLON) >= (if b == ";" then 1 else 0) + Count(after, SEMICOLON)
    ensures forall c <- after :: c in raw
  {
    CountConcat(a + b, after, SEMICOLON);
    CountConcat(a, b, SEMICOLON);
  }

  lemma PrefixedCount(c: char, tail: string)
    ensures Count([c] + tail, COUNTED) == (if c in COUNTED then 1 else 0) + Count(tail, COUNTED)
  {
    assert ([c] + tail)[1..] == tail;
  }

  /** The text of a token and what follows it hold no more counted characters than the input semicolons. */
  lemma TokenCount(entities: EntityTable, s: string, inside: bool)
    ensures var t := NextToken(entities, s, inside);
            t != EndOfInput && t != Malformed ==>
              (if t.Text? then Count(t.text, COUNTED) else 0) + Count(t.rest, SEMICOLON) <= Count(s, SEMICOLON)
  {
    var t := NextToken(entities, s, inside);
    if t != EndOfInput && t != Malformed {
      assert Advances(t, s);
      var n := |s| - |t.rest|;
      assert s == s[..n] + t.rest;
      CountConcat(s[..n], t.rest, SEMICOLON);
      if t.Text? {
        UnescapeCount(entities, TextRun(s));
        assert TextRun(s) == s[..n];
      }
    }
  }

  /** Counted characters held by the parser; once the stack is not empty, `root` is a stale copy. */
  ghost function Weight(p: State): nat {
    (if p.stack == [] then Total(Dict(p.root), COUNTED) else FramesWeight(p.stack)) + PairWeight(p.pair)
  }

  ghost function FramesWeight(stack: seq<Frame>): nat {
    if stack == [] then 0
    else Count(stack[0].key, COUNTED) + Total(Dict(stack[0].contents), COUNTED) + FramesWeight(stack[1..])
  }

  ghost function PairWeight(pair: Option<Pair>): nat {
    match pair
    case Some(Pair(Some(key), _)) => Count(key, COUNTED)
    case _ => 0
  }

  lemma PutWeight(p: State, key: string, v: Value)
    requires p.stack != []
    ensures Weight(Put(p, key, v)) <= FramesWeight(p.stack) + Count(key, COUNTED) + Total(v, COUNTED)
  {
    TotalPut(p.stack[0].contents, key, v, COUNTED);
    assert Put(p, key, v).stack[1..] == p.stack[1..];
  }

  lemma PopWeight(p: State)
    requires p.stack != []
    ensures Weight(Pop(p)) <= Weight(p)
  {
    if |p.stack| > 1 {
      PutWeight(p.(stack := p.stack[1..]), p.stack[0].key, Dict(p.stack[0].contents));
    }
  }

  lemma StartWeight(p: State, name: string)
    requires OnStart(p, name).Ok?
    ensures Weight(OnStart(p, name).value) <= Weight(p)
  {
    if p.stack == [] && name == "dict" {
      var frame := Frame(p.root, "");
      assert [frame][1..] == [] && Count("", COUNTED) == 0;
      assert FramesWeight([frame]) == Total(Dict(p.root), COUNTED);
    } else if p.stack != [] && p.pair.Some? && p.pair.value.element == None && name == "dict" {
      var q := OnStart(p, name).value;
      assert q.stack[1..] == p.stack;
      assert Total(Dict(map[]), COUNTED) == 0;
    }
  }

  lemma TextWeight(p: State, text: string)
    requires OnText(p, text).Ok?
    ensures Weight(OnText(p, text).value) <= Weight(p) + Count(text, COUNTED)
  {
    match p.pair
    case Some(Pair(Some(key), Some(element))) =>
      if ToValue(element, text).Some? {
        PutWeight(p, key, ToValue(element, text).value);
      }
    case _ =>
  }

  lemma EndWeight(p: State, name: string)
    ensures Weight(OnEnd(p, name)) <= Weight(p)
  {
    if OnEnd(p, name) != p { PopWeight(p); }
  }

  lemma {:induction false} RunWeight(entities: EntityTable, s: string, tags: seq<string>, p: State)
    requires Run(entities, s, tags, p).Ok?
    ensures Weight(Run(entities, s, tags, p).value) <= Weight(p) + Count(s, SEMICOLON)
    decreases |s|
  {
    hide NextToken, OnStart, OnEnd, OnText, Weight, Count;
    TokenCount(entities, s, tags != []);
    match NextToken(entities, s, tags != [])
    case EndOfInput =>
    case Skipped(rest) => RunWeight(entities, rest, tags, p);
    case Text(text, rest) =>
      TextWeight(p, text);
      RunWeight(entities, rest, tags, OnText(p, text).value);
    case StartTag(name, rest) =>
      StartWeight(p, name);
      RunWeight(entities, rest, [name] + tags, OnStart(p, name).value);
    case EmptyTag(name, rest) =>
      StartWeight(p, name);
      EndWeight(OnStart(p, name).value, name);
      RunWeight(entities, rest, tags, OnEnd(OnStart(p, name).value, name));
    case EndTag(name, rest) =>
      EndWeight(p, name);
      RunWeight(entities, rest, tags[1..], OnEnd(p, name));
  }

  lemma {:induction false} CollapseWeight(p: State)
    ensures Total(Dict(Collapse(p)), COUNTED) <= Weight(p)
    decreases |p.stack|
  {
    if p.stack != [] {
      PopWeight(p);
      CollapseWeight(Pop(p));
    }
  }

  /** A parsed tree holds no more markup characters and semicolons than the document holds semicolons. */
  lemma {:induction false} ParsedCount(entities: EntityTable, xml: string)
    requires FromXml(entities, xml).Ok?
    ensures Total(FromXml(entities, xml).value, COUNTED) <= Count(xml, SEMICOLON)
  {
    RunWeight(entities, xml, [], INITIAL);
    CollapseWeight(Run(entities, xml, [], INITIAL).value);
    assert Total(Dict(map[]), COUNTED) == 0;
  }

  // ---- Parsed trees have no empty key or string and no unsigned value.

  predicate AsParsed(v: Value) {
    match v
    case Str(s) => s != ""
    case Int(_) => true
    case UInt(_) => false
    case Dict(e) => forall k <- e :: k != "" && AsParsed(e[k])
  }

  ghost predicate ParsedState(p: State) {
    && AsParsed(Dict(p.root))
    && (forall i :: 0 <= i < |p.stack| ==> AsParsed(Dict(p.stack[i].contents)))
    && (forall i :: 0 <= i < |p.stack| - 1 ==> p.stack[i].key != "")
    && (p.pair.Some? && p.pair.value.key.Some? ==> p.pair.value.key.value != "")
  }

  lemma PutParsed(p: State, key: string, v: Value)
    requires p.stack != [] && ParsedState(p) && key != "" && AsParsed(v)
    ensures ParsedState(Put(p, key, v))
  {
  }

  lemma PopParsed(p: State)
    requires p.stack != [] && ParsedState(p)
    ensures ParsedState(Pop(p))
  {
    if |p.stack| > 1 {
      PutParsed(p.(stack := p.stack[1..]), p.stack[0].key, Dict(p.stack[0].contents));
    }
  }

  lemma StartParsed(p: State, name: string)
    requires ParsedState(p) && OnStart(p, name).Ok?
    ensures ParsedState(OnStart(p, name).value)
  {
  }

  lemma EndParsed(p: State, name: string)
    requires ParsedState(p)
    ensures ParsedState(OnEnd(p, name))
  {
    if OnEnd(p, name) != p { PopParsed(p); }
  }

  lemma TextParsed(p: State, text: string)
    requires ParsedState(p) && text != "" && OnText(p, text).Ok?
    ensures ParsedState(OnText(p, text).value)
  {
  }

  lemma TextNotEmpty(entities: EntityTable, s: string, inside: bool)
    ensures NextToken(entities, s, inside).Text? ==> NextToken(entities, s, inside).text != ""
  {
  }

  lemma {:induction false} RunParsed(entities: EntityTable, s: string, tags: seq<string>, p: State)
    requires ParsedState(p) && Run(entities, s, tags, p).Ok?
    ensures ParsedState(Run(entities, s, tags, p).value)
    decreases |s|
  {
    hide NextToken, OnStart, OnEnd, OnText, ParsedState;
    TextNotEmpty(entities, s, tags != []);
    match NextToken(entities, s, tags != [])
    case EndOfInput =>
    case Skipped(rest) => RunParsed(entities, rest, tags, p);
    case Text(text, rest) =>
      TextParsed(p, text);
      RunParsed(entities, rest, tags, OnText(p, text).value);
    case StartTag(name, rest) =>
      StartParsed(p, name);
      RunParsed(entities, rest, [name] + tags, OnStart(p, name).value);
    case EmptyTag(name, rest) =>
      StartParsed(p, name);
      EndParsed(OnStart(p, name).value, name);
      RunParsed(entities, rest, tags, OnEnd(OnStart(p, name).value, name));
    case EndTag(name, rest) =>
      EndParsed(p, name);
      RunParsed(entities, rest, tags[1..], OnEnd(p, name));
  }

  lemma {:induction false} CollapseParsed(p: State)
    requires ParsedState(p)
    ensures AsParsed(Dict(Collapse(p)))
    decreases |p.stack|
  {
    if p.stack != [] {
      PopParsed(p);
      CollapseParsed(Pop(p));
    }
  }

  // ---- The round trip.

  /** No markup characters and no empty strings: that is plain. */
  lemma {:induction false} CountedOut(v: Value)
    requires AsParsed(AsRead(v)) && Total(v, MARKUP) == 0
    ensures Plain(v)
  {
    match v
    case Str(s) => CountNone(s, MARKUP);
    case Int(_) =>
    case UInt(_) =>
    case Dict(e) =>
      forall k <- e ensures PlainText(k) && Plain(e[k]) {
        TotalSplit(v, e.Keys, k, MARKUP);
        CountNone(k, MARKUP);
        assert k in AsReadAll(v) && AsReadAll(v)[k] == AsRead(e[k]);
        CountedOut(e[k]);
      }
  }

  /** A written property list is read as itself, but for its numbers becoming signed, for exactly the plain
      ones; an empty or markup-bearing key or string anywhere in the tree always changes the result or makes
      the parse fail. */
  lemma {:induction false} ReadIffPlain(entities: EntityTable, d: Value)
    requires d.Dict?
    ensures FromXml(entities, ToXml(d)) == Ok(AsRead(d)) <==> Plain(d)
  {
    hide ToXml, Plain, AsRead, Run, Total;
    if Plain(d) {
      PlainIsRead(entities, d);
    } else if FromXml(entities, ToXml(d)) == Ok(AsRead(d)) {
      ParsedResult(entities, ToXml(d));
      ParsedCount(entities, ToXml(d));
      XmlCount(d);
      TotalAsRead(d, COUNTED);
      assert COUNTED == MARKUP + SEMICOLON;
      TotalUnion(d, MARKUP, SEMICOLON);
      CountedOut(d);
      assert false;
    }
  }

  lemma ParsedResult(entities: EntityTable, xml: string)
    requires FromXml(entities, xml).Ok?
    ensures AsParsed(FromXml(entities, xml).value)
  {
    hide Run;
    RunParsed(entities, xml, [], INITIAL);
    CollapseParsed(Run(entities, xml, [], INITIAL).value);
  }

  /** A tree without large unsigned values is read as `ReadBack` says. */
  lemma {:induction false} NoLargeNumbers(v: Value)
    requires AsParsed(ReadBack(v))
    ensures ReadBack(v) == AsRead(v) && (Plain(v) ==> Faithful(v))
  {
    if v.Dict? {
      forall k | k in v.entries
        ensures ReadBack(v.entries[k]) == AsRead(v.entries[k]) && (Plain(v.entries[k]) ==> Faithful(v.entries[k]))
      {
        assert k in ReadBackAll(v) && ReadBackAll(v)[k] == ReadBack(v.entries[k]);
        NoLargeNumbers(v.entries[k]);
      }
      assert ReadBackAll(v) == AsReadAll(v);
    }
  }

  /** Writing a property list and reading it again gives it back, with each unsigned value an `int` can hold
      as an `int`, for exactly the faithful ones: the plain ones without an unsigned value from 2^31 on. */
  lemma {:induction false} RoundTripIffFaithful(entities: EntityTable, d: Value)
    requires d.Dict?
    ensures FromXml(entities, ToXml(d)) == Ok(ReadBack(d)) <==> Faithful(d)
  {
    hide FromXml, ToXml, Faithful, ReadBack, AsRead, Plain;
    if Faithful(d) {
      FaithfulIsReadBack(entities, d);
    } else if FromXml(entities, ToXml(d)) == Ok(ReadBack(d)) {
      ParsedResult(entities, ToXml(d));
      NoLargeNumbers(d);
      ReadIffPlain(entities, d);
      assert false;
    }
  }
}
