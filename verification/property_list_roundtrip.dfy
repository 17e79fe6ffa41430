/** What reading a written property list gives. */
module PropertyListRoundTrip {
  import opened Outcomes
  import opened Decimals
  import opened PropertyLists
  import opened PropertyListWriter
  import opened Markup
  import opened PropertyListParser

  // ---- What a written list is read as.

  /** White space between elements does not reach the parser: no pair is waiting for text. */
  predicate BetweenElements(p: State) {
    p.pair == None || (p.pair.value.key != None && p.pair.value.element == None)
  }

  /** `p` with `m` stored in its innermost dictionary. */
  function PutAll(p: State, m: map<string, Value>): State
    requires p.stack != []
  {
    var head := p.stack[0];
    State(p.root, [head.(contents := head.contents + m)] + p.stack[1..], p.pair)
  }

  /** What is read of the entries under `keys`. */
  function ReadKeys(d: Value, keys: seq<string>): map<string, Value>
    requires d.Dict? && forall k <- keys :: k in d.entries
  {
    map k | k in keys :: AsRead(d.entries[k])
  }

  lemma RunText(entities: EntityTable, raw: string, rest: string, tags: seq<string>, p: State)
    requires PlainText(raw) && tags != []
    requires rest != "" && rest[0] == '<'
    ensures Run(entities, raw + rest, tags, p) == Continue(entities, rest, tags, OnText(p, raw), |raw + rest|)
  {
    PlainTextToken(entities, raw, rest);
  }

  lemma RunStart(entities: EntityTable, name: string, rest: string, tags: seq<string>, p: State)
    requires IsElementName(name) && OnStart(p, name).Ok?
    ensures Run(entities, "<" + name + ">" + rest, tags, p)
         == Run(entities, rest, [name] + tags, OnStart(p, name).value)
  {
    StartTagToken(entities, name, "", rest, tags != []);
    assert "<" + name + "" + ">" + rest == "<" + name + ">" + rest;
  }

  lemma RunEnd(entities: EntityTable, name: string, rest: string, tags: seq<string>, p: State)
    requires IsElementName(name)
    ensures Run(entities, "</" + name + ">" + rest, [name] + tags, p) == Run(entities, rest, tags, OnEnd(p, name))
  {
    EndTagToken(entities, name, rest, true);
    assert ([name] + tags)[1..] == tags;
  }

  lemma {:induction false} IndentIsPlain(level: nat)
    ensures PlainText("\n" + Tabs(level))
  {
    if level > 0 {
      IndentIsPlain(level - 1);
      forall c <- "\n" + Tabs(level) ensures !IsMarkup(c) {
        assert c == '\t' || c in "\n" + Tabs(level - 1);
      }
    }
  }

  /** The line break and tabs before an element are skipped. */
  lemma RunIndent(entities: EntityTable, level: nat, rest: string, tags: seq<string>, p: State)
    requires BetweenElements(p) && tags != []
    requires rest != "" && rest[0] == '<'
    ensures Run(entities, "\n" + Tabs(level) + rest, tags, p) == Run(entities, rest, tags, p)
  {
    IndentIsPlain(level);
    RunText(entities, "\n" + Tabs(level), rest, tags, p);
  }

  /** One line holding an element with text. */
  lemma RunLine(entities: EntityTable, level: nat, name: string, content: string, rest: string,
                tags: seq<string>, p: State)
    requires IsElementName(name) && PlainText(content)
    requires BetweenElements(p) && tags != []
    requires OnStart(p, name).Ok? && OnText(OnStart(p, name).value, content).Ok?
    ensures Run(entities, "\n" + Line(level, Tag(name, content)) + rest, tags, p)
         == Run(entities, "\n" + rest, tags, OnEnd(OnText(OnStart(p, name).value, content).value, name))
  {
    hide Run, OnStart, OnEnd, OnText;
    var after := "\n" + rest;
    var atEnd := "</" + name + ">" + after;
    var atText := content + atEnd;
    var atStart := "<" + name + ">" + atText;
    var q := OnStart(p, name).value;
    assert "\n" + Line(level, Tag(name, content)) + rest == "\n" + Tabs(level) + atStart;
    RunIndent(entities, level, atStart, tags, p);
    RunStart(entities, name, atText, tags, p);
    RunText(entities, content, atEnd, [name] + tags, q);
    RunEnd(entities, name, after, tags, OnText(q, content).value);
  }

  /** The state in which the value of `key` is awaited. */
  function Awaiting(p: State, key: string): State {
    p.(pair := Some(Pair(Some(key), None)))
  }

  lemma RunKey(entities: EntityTable, level: nat, key: string, rest: string, tags: seq<string>, p: State)
    requires PlainText(key) && p.pair == None && p.stack != [] && tags != []
    ensures Run(entities, "\n" + Line(level, Tag("key", key)) + rest, tags, p)
         == Run(entities, "\n" + rest, tags, Awaiting(p, key))
  {
    RunLine(entities, level, "key", key, rest, tags, p);
  }

  lemma RunScalar(entities: EntityTable, level: nat, element: string, content: string, rest: string,
                  tags: seq<string>, p: State, key: string)
    requires element == "string" || element == "integer"
    requires PlainText(content) && p.stack != [] && tags != []
    ensures Run(entities, "\n" + Line(level, Tag(element, content)) + rest, tags, Awaiting(p, key))
         == Run(entities, "\n" + rest, tags, Put(p, key, ToValue(element, content).value))
  {
    RunLine(entities, level, element, content, rest, tags, Awaiting(p, key));
  }

  lemma PrintIsPlain(i: int)
    ensures PlainText(PrintInt(i))
  {
    var digits := PrintNat(if i < 0 then -i else i);
    assert forall c <- PrintInt(i) :: c == '-' || c in digits;
  }

  /** Opening, filling and closing a dictionary is storing it under its key. */
  lemma NestedDict(p: State, key: string, m: map<string, Value>)
    requires p.stack != []
    ensures OnStart(Awaiting(p, key), "dict").Ok?
    ensures var q := OnStart(Awaiting(p, key), "dict").value;
            q.stack != [] && q.pair == None && OnEnd(PutAll(q, m), "dict") == Put(p, key, Dict(m))
  {
    var q := OnStart(Awaiting(p, key), "dict").value;
    assert q.stack[1..] == p.stack && map[] + m == m;
  }

  lemma {:induction false} RunValue(entities: EntityTable, level: nat, v: Value, rest: string,
                                    tags: seq<string>, p: State, key: string)
    requires Plain(v) && p.stack != [] && tags != []
    ensures Run(entities, "\n" + ValueText(level, v) + rest, tags, Awaiting(p, key))
         == Run(entities, "\n" + rest, tags, Put(p, key, AsRead(v)))
    decreases v, 2
  {
    hide Run, ToInt32, PrintInt, ParseInt, DictText, Line, Tag;
    match v
    case Str(s) => RunScalar(entities, level, "string", s, rest, tags, p, key);
    case Int(i) =>
      PrintIsPlain(i);
      ParseAsSigned(i);
      RunScalar(entities, level, "integer", PrintInt(i), rest, tags, p, key);
    case UInt(u) =>
      PrintIsPlain(u);
      ParseAsSigned(u);
      RunScalar(entities, level, "integer", PrintInt(u), rest, tags, p, key);
    case Dict(_) =>
      NestedDict(p, key, AsReadAll(v));
      RunDict(entities, level, v, rest, tags, Awaiting(p, key));
  }

  /** The text of a dictionary, cut where the parser stops between tokens. */
  lemma DictShape(level: nat, d: Value, rest: string)
    requires d.Dict?
    ensures "\n" + DictText(level, d) + rest
         == "\n" + Tabs(level) + ("<" + "dict" + ">" + ("\n" + EntriesText(level + 1, d, SortedKeys(d.entries.Keys))
            + (Tabs(level) + ("</" + "dict" + ">" + ("\n" + rest)))))
  {
    hide EntriesText, Tabs, SortedKeys;
  }

  lemma Assoc3(a: string, b: string, c: string)
    ensures a + (b + c) == a + b + c
  {
  }

  /** A written dictionary is read as opening it, storing its values and closing it. */
  lemma {:induction false} RunDict(entities: EntityTable, level: nat, d: Value, rest: string, tags: seq<string>,
                                   p: State)
    requires d.Dict? && Plain(d) && tags != []
    requires BetweenElements(p) && OnStart(p, "dict").Ok?
    requires OnStart(p, "dict").value.stack != [] && OnStart(p, "dict").value.pair == None
    ensures Run(entities, "\n" + DictText(level, d) + rest, tags, p)
         == Run(entities, "\n" + rest, tags, OnEnd(PutAll(OnStart(p, "dict").value, AsReadAll(d)), "dict"))
    decreases d, 1
  {
    hide Run, OnStart, OnEnd, DictText, EntriesText, Tabs, SortedKeys;
    var keys := SortedKeys(d.entries.Keys);
    var q := OnStart(p, "dict").value;
    var filled := PutAll(q, AsReadAll(d));
    var atEnd := "</" + "dict" + ">" + ("\n" + rest);
    var entries := EntriesText(level + 1, d, keys);
    var inside := "\n" + entries + (Tabs(level) + atEnd);
    DictShape(level, d, rest);
    RunIndent(entities, level, "<" + "dict" + ">" + inside, tags, p);
    RunStart(entities, "dict", inside, tags, p);
    RunEntries(entities, level + 1, d, keys, Tabs(level) + atEnd, ["dict"] + tags, q);
    assert ReadKeys(d, keys) == AsReadAll(d);
    Assoc3("\n", Tabs(level), atEnd);
    RunIndent(entities, level, atEnd, ["dict"] + tags, filled);
    RunEnd(entities, "dict", "\n" + rest, tags, filled);
  }

  /** The text of a key, its value and the entries after it, cut after the key and after the value. */
  lemma EntriesShape(level: nat, d: Value, keys: seq<string>, rest: string)
    requires d.Dict? && keys != [] && forall k <- keys :: k in d.entries
    ensures var value := ValueText(level, d.entries[keys[0]]);
            var tail := EntriesText(level, d, keys[1..]) + rest;
            "\n" + EntriesText(level, d, keys) + rest == "\n" + Line(level, Tag("key", keys[0])) + (value + tail)
            && "\n" + (value + tail) == "\n" + value + tail
            && "\n" + tail == "\n" + EntriesText(level, d, keys[1..]) + rest
  {
    hide Line, ValueText, Tag;
    Reassociate("\n", Line(level, Tag("key", keys[0])), ValueText(level, d.entries[keys[0]]),
                EntriesText(level, d, keys[1..]), rest);
  }

  lemma Reassociate(a: string, b: string, c: string, d: string, e: string)
    ensures a + (b + c + d) + e == a + b + (c + (d + e))
    ensures a + (c + (d + e)) == a + c + (d + e)
    ensures a + (d + e) == a + d + e
  {
  }

  lemma {:induction false} RunEntries(entities: EntityTable, level: nat, d: Value, keys: seq<string>, rest: string,
                                      tags: seq<string>, p: State)
    requires d.Dict? && Plain(d) && forall k <- keys :: k in d.entries
    requires p.stack != [] && p.pair == None && tags != []
    ensures Run(entities, "\n" + EntriesText(level, d, keys) + rest, tags, p)
         == Run(entities, "\n" + rest, tags, PutAll(p, ReadKeys(d, keys)))
    decreases d, 0, |keys|
  {
    hide Run, Line, Tag, ValueText;
    if keys == [] {
      assert "\n" + EntriesText(level, d, keys) + rest == "\n" + rest;
      assert p.stack[0].contents + ReadKeys(d, keys) == p.stack[0].contents;
      assert [p.stack[0]] + p.stack[1..] == p.stack;
    } else {
      hide EntriesText;
      var key, v := keys[0], d.entries[keys[0]];
      var tail := EntriesText(level, d, keys[1..]) + rest;
      EntriesShape(level, d, keys, rest);
      RunKey(entities, level, key, ValueText(level, v) + tail, tags, p);
      RunValue(entities, level, v, tail, tags, p, key);
      RunEntries(entities, level, d, keys[1..], rest, tags, Put(p, key, AsRead(v)));
      PutFirst(p, d, keys);
    }
  }

  lemma PutFirst(p: State, d: Value, keys: seq<string>)
    requires d.Dict? && keys != [] && forall k <- keys :: k in d.entries
    requires p.stack != [] && p.pair == None
    ensures PutAll(p, ReadKeys(d, keys))
         == PutAll(Put(p, keys[0], AsRead(d.entries[keys[0]])), ReadKeys(d, keys[1..]))
  {
    hide AsRead;
    var contents := p.stack[0].contents;
    assert contents + ReadKeys(d, keys) == contents[keys[0] := AsRead(d.entries[keys[0]])] + ReadKeys(d, keys[1..]);
    assert Put(p, keys[0], AsRead(d.entries[keys[0]])).stack[1..] == p.stack[1..];
  }

  // ---- Before and after the outermost dictionary.

  lemma SkipDeclaration(entities: EntityTable, rest: string)
    ensures NextToken(entities, "<?" + DECLARATION_BODY + "?>" + rest, false) == Skipped(rest)
  {
    var body := DECLARATION_BODY;
    assert body[0] == 'x' && '?' !in body;
    hide DECLARATION_BODY;
    IsDeclaration(entities, "<?" + body + "?>" + rest);
    CutDeclaration(body, rest);
    hide NextToken, Cut;
  }

  lemma IsDeclaration(entities: EntityTable, s: string)
    requires "<?" <= s
    ensures NextToken(entities, s, false) == SkipPast(s, "?>")
  {
    hide SkipPast;
  }

  lemma CutDeclaration(body: string, rest: string)
    requires body != "" && body[0] != '>' && '?' !in body
    ensures Cut("<?" + body + "?>" + rest, "?>") == Some(("<?" + body, rest))
  {
    hide Cut;
    var tail := body + "?>" + rest;
    assert (['?'] + tail)[1] == tail[0] == body[0];
    CutAtFirst(body, "?>", rest);
    CutOne('?', tail, "?>");
    CutOne('<', ['?'] + tail, "?>");
    assert "<?" + body + "?>" + rest == ['<'] + (['?'] + tail);
    assert ['<'] + (['?'] + body) == "<?" + body;
  }

  /** Cutting at a `stop` that `s` does not begin with. */
  lemma CutOne(c: char, tail: string, stop: string)
    requires stop != "" && !(stop <= [c] + tail)
    ensures Cut([c] + tail, stop) == match Cut(tail, stop)
              case None => None
              case Some((before, after)) => Some(([c] + before, after))
  {
    assert ([c] + tail)[1..] == tail;
  }

  lemma PublicIdIsPlain()
    ensures '>' !in PUBLIC_ID && ';' !in PUBLIC_ID
  {
  }

  lemma SystemIdIsPlain()
    ensures '>' !in SYSTEM_ID && ';' !in SYSTEM_ID
  {
    assert forall c <- "\"http://www.apple.com/DTDs/" :: c != '>' && c != ';';
    assert forall c <- "PropertyList-1.0.dtd\"" :: c != '>' && c != ';';
  }

  lemma DoctypeIsPlain()
    ensures '>' !in DOCTYPE_BODY && ';' !in DOCTYPE_BODY
  {
    PublicIdIsPlain();
    SystemIdIsPlain();
    hide PUBLIC_ID, SYSTEM_ID;
    assert forall c <- "!DOCTYPE plist PUBLIC " :: c != '>' && c != ';';
  }

  lemma SkipDoctype(entities: EntityTable, rest: string)
    ensures NextToken(entities, "<" + DOCTYPE_BODY + ">" + rest, false) == Skipped(rest)
  {
    DoctypeIsPlain();
    var body := DOCTYPE_BODY;
    assert body[0] == '!' && body[1] == 'D';
    hide DOCTYPE_BODY;
    assert ("<" + body + ">" + rest)[1] == '!' && ("<" + body + ">" + rest)[2] == 'D';
    CutAtFirst("<" + body, ">", rest);
  }

  lemma SkipLineBreak(entities: EntityTable, rest: string)
    requires rest != "" && rest[0] == '<'
    ensures NextToken(entities, "\n" + rest, false) == Skipped(rest)
  {
    TextRunStops("\n", rest);
    assert ("\n" + rest)[1..] == rest;
  }

  lemma PrologShape(declaration: string, doctype: string, start: string, rest: string)
    ensures (Tabs(0) + declaration + "\n") + (Tabs(0) + doctype + "\n") + (Tabs(0) + start + "\n") + rest
         == declaration + ("\n" + (doctype + ("\n" + (start + ("\n" + rest)))))
  {
  }

  lemma RunSkipped(entities: EntityTable, s: string, rest: string, p: State)
    requires NextToken(entities, s, false) == Skipped(rest)
    ensures Run(entities, s, [], p) == Run(entities, rest, [], p)
  {
  }

  lemma RunPlistStart(entities: EntityTable, rest: string, p: State)
    requires p.stack == []
    ensures Run(entities, PLIST_START + rest, [], p) == Run(entities, rest, ["plist"], p)
  {
    assert IsSpace(PLIST_ATTRIBUTES[0]);
    assert PLIST_START + rest == "<" + "plist" + PLIST_ATTRIBUTES + ">" + rest;
    StartTagToken(entities, "plist", PLIST_ATTRIBUTES, rest, false);
    assert ["plist"] + [] == ["plist"];
  }

  lemma RunProlog(entities: EntityTable, rest: string)
    ensures Run(entities, Line(0, XML_DECLARATION) + Line(0, DOCTYPE) + Line(0, PLIST_START) + rest, [], INITIAL)
         == Run(entities, "\n" + rest, ["plist"], INITIAL)
  {
    hide DECLARATION_BODY, DOCTYPE_BODY, PLIST_ATTRIBUTES, NextToken, Run;
    PrologShape(XML_DECLARATION, DOCTYPE, PLIST_START, rest);
    var atStart := PLIST_START + ("\n" + rest);
    var atDoctype := DOCTYPE + ("\n" + atStart);
    SkipDeclaration(entities, "\n" + atDoctype);
    RunSkipped(entities, XML_DECLARATION + ("\n" + atDoctype), "\n" + atDoctype, INITIAL);
    SkipLineBreak(entities, atDoctype);
    RunSkipped(entities, "\n" + atDoctype, atDoctype, INITIAL);
    SkipDoctype(entities, "\n" + atStart);
    RunSkipped(entities, atDoctype, "\n" + atStart, INITIAL);
    SkipLineBreak(entities, atStart);
    RunSkipped(entities, "\n" + atStart, atStart, INITIAL);
    RunPlistStart(entities, "\n" + rest, INITIAL);
  }

  lemma RunEpilog(entities: EntityTable, p: State)
    requires p.stack == [] && p.pair == None
    ensures Run(entities, "\n" + Line(0, PLIST_END), ["plist"], p) == Ok(p)
  {
    var atEnd := "</" + "plist" + ">" + "\n";
    assert "\n" + Line(0, PLIST_END) == "\n" + Tabs(0) + atEnd;
    LastLine(entities, p);
    hide Run, Line, Tabs;
    RunIndent(entities, 0, atEnd, ["plist"], p);
    assert ["plist"] + [] == ["plist"];
    RunEnd(entities, "plist", "\n", [], p);
    assert OnEnd(p, "plist") == p;
  }

  lemma LastLine(entities: EntityTable, p: State)
    ensures Run(entities, "\n", [], p) == Ok(p)
  {
    TextRunStops("\n", "");
    assert "\n" + "" == "\n";
  }

  /** Every property list with plain text, of any nesting and with any numbers, is read as `AsRead`. */
  lemma {:induction false} PlainIsRead(entities: EntityTable, d: Value)
    requires d.Dict? && Plain(d)
    ensures FromXml(entities, ToXml(d)) == Ok(AsRead(d))
  {
    hide Run, Line, DictText;
    var end := Line(0, PLIST_END);
    var header := Line(0, XML_DECLARATION) + Line(0, DOCTYPE) + Line(0, PLIST_START);
    Assoc3(header, DictText(0, d), end);
    RunProlog(entities, DictText(0, d) + end);
    Assoc3("\n", DictText(0, d), end);
    RunDict(entities, 0, d, end, ["plist"], INITIAL);
    assert map[] + AsReadAll(d) == AsReadAll(d);
    RunEpilog(entities, State(AsReadAll(d), [], None));
  }

  lemma {:induction false} FaithfulIsAsRead(v: Value)
    requires Faithful(v)
    ensures Plain(v) && AsRead(v) == ReadBack(v)
  {
    if v.Dict? {
      forall k | k in v.entries ensures Plain(v.entries[k]) && AsRead(v.entries[k]) == ReadBack(v.entries[k]) {
        FaithfulIsAsRead(v.entries[k]);
      }
      assert AsReadAll(v) == ReadBackAll(v);
    }
  }

  /** Every faithful property list is read back from what is written for it. */
  lemma {:induction false} FaithfulIsReadBack(entities: EntityTable, d: Value)
    requires d.Dict? && Faithful(d)
    ensures FromXml(entities, ToXml(d)) == Ok(ReadBack(d))
  {
    hide FromXml, ToXml;
    FaithfulIsAsRead(d);
    PlainIsRead(entities, d);
  }
}
