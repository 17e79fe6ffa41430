/** Documents that other programs write: any order of keys, any layout, elements of types this program has no use
    for, empty elements and character references. What they are read as is said here of the document's own text. */
module PropertyListForeign {
  import opened Outcomes
  import opened Decimals
  import opened PropertyLists
  import opened Markup
  import opened PropertyListParser
  import opened PropertyListRoundTrip

  /** A key and its value as they stand in a document: `key` and `text` unresolved, `gap` between key and value,
      `after` behind the value. A nested dictionary has `inner` behind its start tag. */
  datatype Item =
    | Scalar(key: string, gap: string, element: string, text: string, after: string)
    | Bare(key: string, gap: string, element: string, short: bool, after: string)
    | Nested(key: string, gap: string, inner: string, items: seq<Item>, after: string)

  /** An item with `rest` behind it. */
  function ItemText(item: Item, rest: string): string
    decreases item, 0
  {
    "<key>" + item.key + "</key>" + (item.gap +
    match item
    case Scalar(_, _, element, text, after) => "<" + element + ">" + text + "</" + element + ">" + (after + rest)
    case Bare(_, _, element, short, after) => EmptyElement(element, short) + (after + rest)
    case Nested(_, _, inner, items, after) => "<dict>" + (inner + ItemsText(items, "</dict>" + (after + rest))))
  }

  function EmptyElement(name: string, short: bool): string {
    if short then "<" + name + "/>" else "<" + name + "></" + name + ">"
  }

  function ItemsText(items: seq<Item>, rest: string): string {
    if items == [] then rest else ItemText(items[0], ItemsText(items[1..], rest))
  }

  /** Text that stands for `Unescape` of it. */
  predicate IsText(entities: EntityTable, raw: string) {
    raw != "" && '<' !in raw && Unescape(entities, raw).Some?
  }

  /** White space or any other text that is between elements. */
  predicate IsGap(entities: EntityTable, gap: string) {
    gap == "" || IsText(entities, gap)
  }

  predicate WellFormed(entities: EntityTable, item: Item)
    decreases item, 0
  {
    && IsText(entities, item.key) && IsGap(entities, item.gap) && IsGap(entities, item.after)
    && match item
       case Scalar(_, _, element, text, _) => IsElementName(element) && element != "dict" && IsText(entities, text)
       case Bare(_, _, element, _, after) => IsElementName(element) && (element == "dict" || after != "")
       case Nested(_, _, inner, items, _) => IsGap(entities, inner) && AllWellFormed(entities, items)
  }

  predicate AllWellFormed(entities: EntityTable, items: seq<Item>) {
    items == [] || (WellFormed(entities, items[0]) && AllWellFormed(entities, items[1..]))
  }

  /** What an element with text adds to a dictionary: strings and integers are kept, everything else is not. */
  function Stored(m: map<string, Value>, key: string, element: string, text: string): map<string, Value> {
    if element == "string" then m[key := Str(text)]
    else if element == "integer" then m[key := Int(ParseInt(text))]
    else m
  }

  /** What an item adds. An empty element takes the text behind it for its own. */
  function Meaning(entities: EntityTable, item: Item, m: map<string, Value>): map<string, Value>
    requires WellFormed(entities, item)
    decreases item, 0
  {
    var key := Unescape(entities, item.key).value;
    match item
    case Scalar(_, _, element, text, _) => Stored(m, key, element, Unescape(entities, text).value)
    case Bare(_, _, element, _, after) =>
      if element == "dict" then m[key := Dict(map[])] else Stored(m, key, element, Unescape(entities, after).value)
    case Nested(_, _, _, items, _) => m[key := Dict(MeaningOf(entities, items, map[]))]
  }

  function MeaningOf(entities: EntityTable, items: seq<Item>, m: map<string, Value>): map<string, Value>
    requires AllWellFormed(entities, items)
  {
    if items == [] then m else MeaningOf(entities, items[1..], Meaning(entities, items[0], m))
  }

  // ---- Single tokens.

  lemma ReadText(entities: EntityTable, raw: string, rest: string, tags: seq<string>, p: State)
    requires IsText(entities, raw) && tags != [] && rest != "" && rest[0] == '<'
    ensures Run(entities, raw + rest, tags, p)
         == Continue(entities, rest, tags, OnText(p, Unescape(entities, raw).value), |raw + rest|)
  {
    TextRunStops(raw, rest);
    assert raw[0] in raw && (raw + rest)[0] == raw[0];
    assert (raw + rest)[|raw|..] == rest;
    hide Unescape, TextRun, OnText;
  }

  lemma ReadGap(entities: EntityTable, gap: string, rest: string, tags: seq<string>, p: State)
    requires IsGap(entities, gap) && tags != [] && rest != "" && rest[0] == '<' && BetweenElements(p)
    ensures Run(entities, gap + rest, tags, p) == Run(entities, rest, tags, p)
  {
    if gap == "" {
      assert gap + rest == rest;
    } else {
      ReadText(entities, gap, rest, tags, p);
    }
    hide Run, Unescape;
  }

  lemma ReadBare(entities: EntityTable, name: string, short: bool, rest: string, tags: seq<string>, p: State)
    requires IsElementName(name) && OnStart(p, name).Ok?
    ensures Run(entities, EmptyElement(name, short) + rest, tags, p)
         == Run(entities, rest, tags, OnEnd(OnStart(p, name).value, name))
  {
    if short {
      ReadShort(entities, name, rest, tags, p);
    } else {
      hide Run, OnStart, OnEnd;
      assert "<" + name + "></" + name + ">" + rest == "<" + name + ">" + ("</" + name + ">" + rest);
      RunStart(entities, name, "</" + name + ">" + rest, tags, p);
      RunEnd(entities, name, rest, tags, OnStart(p, name).value);
    }
  }

  lemma ReadShort(entities: EntityTable, name: string, rest: string, tags: seq<string>, p: State)
    requires IsElementName(name) && OnStart(p, name).Ok?
    ensures Run(entities, "<" + name + "/>" + rest, tags, p)
         == Run(entities, rest, tags, OnEnd(OnStart(p, name).value, name))
  {
    EmptyTagToken(entities, name, rest, tags != []);
    hide NextToken, OnStart, OnEnd;
  }

  /** An element with text, when its callbacks do not fail. */
  lemma ReadElement(entities: EntityTable, name: string, raw: string, rest: string, tags: seq<string>, p: State)
    requires IsElementName(name) && IsText(entities, raw) && OnStart(p, name).Ok?
    requires OnText(OnStart(p, name).value, Unescape(entities, raw).value).Ok?
    ensures Run(entities, "<" + name + ">" + raw + "</" + name + ">" + rest, tags, p)
         == Run(entities, rest, tags, OnEnd(OnText(OnStart(p, name).value, Unescape(entities, raw).value).value, name))
  {
    hide Run, OnStart, OnEnd, OnText, Unescape;
    var atEnd := "</" + name + ">" + rest;
    assert "<" + name + ">" + raw + "</" + name + ">" + rest == "<" + name + ">" + (raw + atEnd);
    RunStart(entities, name, raw + atEnd, tags, p);
    ReadText(entities, raw, atEnd, [name] + tags, OnStart(p, name).value);
    RunEnd(entities, name, rest, tags, OnText(OnStart(p, name).value, Unescape(entities, raw).value).value);
  }

  /** The dictionary being filled. */
  function Top(p: State): map<string, Value>
    requires p.stack != []
  {
    p.stack[0].contents
  }

  /** It holds `m`, and no pair is under way. */
  function With(p: State, m: map<string, Value>): State
    requires p.stack != []
  {
    State(p.root, [p.stack[0].(contents := m)] + p.stack[1..], None)
  }

  // ---- Values.

  /** An element with text other than a `dict`, where a value is awaited: a string or an integer is stored under
      the key; of anything else nothing is, and the key is dropped with it. */
  lemma ReadScalar(entities: EntityTable, key: string, element: string, raw: string, rest: string, tags: seq<string>,
                   p: State)
    requires p.stack != [] && IsElementName(element) && element != "dict" && IsText(entities, raw)
    ensures Run(entities, "<" + element + ">" + raw + "</" + element + ">" + rest, tags, Awaiting(p, key))
         == Run(entities, rest, tags, With(p, Stored(Top(p), key, element, Unescape(entities, raw).value)))
  {
    ScalarStored(p, key, element, Unescape(entities, raw).value);
    hide Run, OnStart, OnText, OnEnd, Unescape, Stored, With, Awaiting;
    ReadElement(entities, element, raw, rest, tags, Awaiting(p, key));
  }

  lemma ScalarStored(p: State, key: string, element: string, text: string)
    requires p.stack != [] && element != "dict"
    ensures var q := OnStart(Awaiting(p, key), element);
            q.Ok? && OnText(q.value, text).Ok?
            && OnEnd(OnText(q.value, text).value, element) == With(p, Stored(Top(p), key, element, text))
  {
    hide ParseInt;
    assert [p.stack[0].(contents := p.stack[0].contents)] + p.stack[1..] == p.stack;
  }

  lemma StoredNothing(p: State, key: string, element: string, text: string)
    requires p.stack != [] && element != "string" && element != "integer"
    ensures With(p, Stored(Top(p), key, element, text)) == p.(pair := None)
  {
    assert [p.stack[0].(contents := p.stack[0].contents)] + p.stack[1..] == p.stack;
  }

  /** An element of any other type leaves every dictionary as it was. */
  lemma UnknownElement(entities: EntityTable, key: string, element: string, raw: string, rest: string,
                       tags: seq<string>, p: State)
    requires p.stack != [] && IsElementName(element) && element != "dict" && element != "string" && element != "integer"
    requires IsText(entities, raw)
    ensures Run(entities, "<" + element + ">" + raw + "</" + element + ">" + rest, tags, Awaiting(p, key))
         == Run(entities, rest, tags, p.(pair := None))
  {
    ReadScalar(entities, key, element, raw, rest, tags, p);
    StoredNothing(p, key, element, Unescape(entities, raw).value);
    hide Run, Unescape, With, Stored;
  }

  /** An empty element takes the text behind it for its own: an empty string is read as the white space after it. */
  lemma ReadEmpty(entities: EntityTable, key: string, element: string, short: bool, after: string, rest: string,
                  tags: seq<string>, p: State)
    requires p.stack != [] && tags != [] && rest != "" && rest[0] == '<'
    requires IsElementName(element) && element != "dict" && IsText(entities, after)
    ensures Run(entities, EmptyElement(element, short) + (after + rest), tags, Awaiting(p, key))
         == Run(entities, rest, tags, With(p, Stored(Top(p), key, element, Unescape(entities, after).value)))
  {
    ScalarStored(p, key, element, Unescape(entities, after).value);
    EndChangesNothing(element);
    hide Run, OnStart, OnText, Unescape, Stored, With, Awaiting, OnEnd;
    var q := OnStart(Awaiting(p, key), element).value;
    ReadBare(entities, element, short, after + rest, tags, Awaiting(p, key));
    ReadText(entities, after, rest, tags, q);
  }

  lemma EndChangesNothing(element: string)
    requires element != "dict"
    ensures forall p :: OnEnd(p, element) == p
  {
  }

  /** An empty element of another type, and white space: nothing is stored. */
  lemma UnknownEmptyElement(entities: EntityTable, key: string, element: string, short: bool, after: string,
                            rest: string, tags: seq<string>, p: State)
    requires p.stack != [] && tags != [] && rest != "" && rest[0] == '<'
    requires IsElementName(element) && element != "dict" && element != "string" && element != "integer"
    requires IsText(entities, after)
    ensures Run(entities, EmptyElement(element, short) + (after + rest), tags, Awaiting(p, key))
         == Run(entities, rest, tags, p.(pair := None))
  {
    ReadEmpty(entities, key, element, short, after, rest, tags, p);
    StoredNothing(p, key, element, Unescape(entities, after).value);
    hide Run, Unescape, With, Stored;
  }

  /** What is inside an array is not looked at, but the end of a dictionary there ends the one around the array: the
      one that was being filled goes where it belongs, and what follows is stored in the one below, if there is one. */
  lemma DictInArray(entities: EntityTable, key: string, gap: string, rest: string, tags: seq<string>, p: State)
    requires p.stack != [] && p.pair == None && IsText(entities, gap)
    ensures Run(entities, "<array>" + (gap + ("<dict>" + ("</dict>" + ("</array>" + rest)))), tags, Awaiting(p, key))
         == Run(entities, rest, tags,
                if |p.stack| == 1 then State(Top(p), [], None)
                else
                  var below := p.(stack := p.stack[1..]);
                  With(below, Top(below)[p.stack[0].key := Dict(Top(p))]))
  {
    var q := p.(pair := Some(Pair(Some(key), Some("array"))));
    assert OnStart(Awaiting(p, key), "array") == Ok(q) && OnText(q, Unescape(entities, gap).value) == Ok(p);
    assert OnStart(p, "dict") == Ok(p);
    var closed := OnEnd(p, "dict");
    assert OnEnd(closed, "array") == closed;
    var atArrayEnd := "</array>" + rest;
    var atEnd := "</dict>" + atArrayEnd;
    var atDict := "<dict>" + atEnd;
    hide Run, Unescape, OnText, OnStart, OnEnd;
    assert "<" + "array" + ">" == "<array>" && "</" + "array" + ">" == "</array>";
    assert "<" + "dict" + ">" == "<dict>" && "</" + "dict" + ">" == "</dict>";
    RunStart(entities, "array", gap + atDict, tags, Awaiting(p, key));
    ReadText(entities, gap, atDict, ["array"] + tags, q);
    ArrayText(entities, atDict, ["array"] + tags, q, Unescape(entities, gap).value, p, |gap + atDict|);
    RunStart(entities, "dict", atEnd, ["array"] + tags, p);
    RunEnd(entities, "dict", atArrayEnd, ["array"] + tags, p);
    RunEnd(entities, "array", rest, tags, closed);
  }

  lemma ArrayText(entities: EntityTable, rest: string, tags: seq<string>, q: State, text: string, p: State, bound: nat)
    requires |rest| < bound && OnText(q, text) == Ok(p)
    ensures Continue(entities, rest, tags, OnText(q, text), bound) == Run(entities, rest, tags, p)
  {
    hide Run, OnText;
  }

  // ---- Items.

  lemma ReadKey(entities: EntityTable, raw: string, rest: string, tags: seq<string>, p: State)
    requires p.stack != [] && p.pair == None && IsText(entities, raw)
    ensures Run(entities, "<key>" + raw + "</key>" + rest, tags, p)
         == Run(entities, rest, tags, Awaiting(p, Unescape(entities, raw).value))
  {
    hide Run, Unescape;
    ReadElement(entities, "key", raw, rest, tags, p);
    assert "<" + "key" + ">" + raw + "</" + "key" + ">" + rest == "<key>" + raw + "</key>" + rest;
  }

  /** What an item begins with. */
  lemma ItemBegins(item: Item, rest: string)
    ensures ItemText(item, rest) != "" && ItemText(item, rest)[0] == '<'
  {
    hide ItemsText;
  }

  lemma ItemsBegin(items: seq<Item>, rest: string)
    requires rest != "" && rest[0] == '<'
    ensures ItemsText(items, rest) != "" && ItemsText(items, rest)[0] == '<'
  {
    hide ItemText;
    if items != [] { ItemBegins(items[0], ItemsText(items[1..], rest)); }
  }

  /** A key, up to its value. */
  lemma ReadKeyAndGap(entities: EntityTable, key: string, gap: string, rest: string, tags: seq<string>, p: State)
    requires p.stack != [] && p.pair == None && tags != [] && rest != "" && rest[0] == '<'
    requires IsText(entities, key) && IsGap(entities, gap)
    ensures Run(entities, "<key>" + key + "</key>" + (gap + rest), tags, p)
         == Run(entities, rest, tags, Awaiting(p, Unescape(entities, key).value))
  {
    ReadKey(entities, key, gap + rest, tags, p);
    ReadGap(entities, gap, rest, tags, Awaiting(p, Unescape(entities, key).value));
    hide Run, Unescape;
  }

  /** An empty `dict` is an empty dictionary. */
  lemma ReadEmptyDict(entities: EntityTable, key: string, short: bool, after: string, rest: string, tags: seq<string>,
                      p: State)
    requires p.stack != [] && tags != [] && rest != "" && rest[0] == '<' && IsGap(entities, after)
    ensures Run(entities, EmptyElement("dict", short) + (after + rest), tags, Awaiting(p, key))
         == Run(entities, rest, tags, With(p, Top(p)[key := Dict(map[])]))
  {
    hide Run, IsGap, PutAll;
    var q := With(p, Top(p)[key := Dict(map[])]);
    NestedDict(p, key, map[]);
    PutAllNothing(OnStart(Awaiting(p, key), "dict").value);
    hide OnStart, OnEnd;
    ReadBare(entities, "dict", short, after + rest, tags, Awaiting(p, key));
    ReadGap(entities, after, rest, tags, q);
  }

  lemma PutAllNothing(p: State)
    requires p.stack != []
    ensures PutAll(p, map[]) == p
  {
    assert p.stack[0].contents + map[] == p.stack[0].contents;
    assert [p.stack[0]] + p.stack[1..] == p.stack;
  }

  lemma PutAllWith(p: State, m: map<string, Value>)
    requires p.stack != [] && p.pair == None && Top(p) == map[]
    ensures PutAll(p, m) == With(p, m)
  {
    assert map[] + m == m;
  }

  /** Reading an item, whatever is behind it, adds what it means to the dictionary being filled. */
  lemma {:induction false} ReadItem(entities: EntityTable, item: Item, rest: string, tags: seq<string>, p: State)
    requires WellFormed(entities, item) && p.stack != [] && p.pair == None
    requires tags != [] && rest != "" && rest[0] == '<'
    ensures Run(entities, ItemText(item, rest), tags, p)
         == Run(entities, rest, tags, With(p, Meaning(entities, item, Top(p))))
    decreases item, 0
  {
    hide Run, Unescape, Stored, OnStart, OnText, OnEnd;
    var key := Unescape(entities, item.key).value;
    match item
    case Scalar(_, gap, element, text, after) =>
      var value := "<" + element + ">" + text + "</" + element + ">" + (after + rest);
      ReadKeyAndGap(entities, item.key, gap, value, tags, p);
      ReadScalar(entities, key, element, text, after + rest, tags, p);
      ReadGap(entities, after, rest, tags, With(p, Meaning(entities, item, Top(p))));
    case Bare(_, gap, element, short, after) =>
      var value := EmptyElement(element, short) + (after + rest);
      ReadKeyAndGap(entities, item.key, gap, value, tags, p);
      if element == "dict" {
        ReadEmptyDict(entities, key, short, after, rest, tags, p);
      } else {
        ReadEmpty(entities, key, element, short, after, rest, tags, p);
      }
    case Nested(_, gap, inner, items, after) =>
      var value := "<dict>" + (inner + ItemsText(items, "</dict>" + (after + rest)));
      ReadKeyAndGap(entities, item.key, gap, value, tags, p);
      ReadNested(entities, key, inner, items, after, rest, tags, p);
  }

  lemma {:induction false} ReadNested(entities: EntityTable, key: string, inner: string, items: seq<Item>,
                                      after: string, rest: string, tags: seq<string>, p: State)
    requires IsGap(entities, inner) && AllWellFormed(entities, items) && IsGap(entities, after)
    requires p.stack != [] && tags != [] && rest != "" && rest[0] == '<'
    ensures Run(entities, "<dict>" + (inner + ItemsText(items, "</dict>" + (after + rest))), tags, Awaiting(p, key))
         == Run(entities, rest, tags, With(p, Top(p)[key := Dict(MeaningOf(entities, items, map[]))]))
    decreases items, 2
  {
    hide Run, Unescape, OnText, IsGap, WellFormed, Meaning;
    var m, atEnd := MeaningOf(entities, items, map[]), "</dict>" + (after + rest);
    var inside := ItemsText(items, atEnd);
    ItemsBegin(items, atEnd);
    NestedDict(p, key, m);
    var q := OnStart(Awaiting(p, key), "dict").value;
    PutAllWith(q, m);
    hide OnStart, OnEnd, ItemsText, MeaningOf, PutAll;
    assert "<" + "dict" + ">" == "<dict>" && "</" + "dict" + ">" == "</dict>";
    RunStart(entities, "dict", inner + inside, tags, Awaiting(p, key));
    ReadGap(entities, inner, inside, ["dict"] + tags, q);
    ReadItems(entities, items, atEnd, ["dict"] + tags, q);
    RunEnd(entities, "dict", after + rest, tags, With(q, m));
    ReadGap(entities, after, rest, tags, With(p, Top(p)[key := Dict(m)]));
  }

  /** And so does reading items one after the other: the last value of a key is the one it has. */
  lemma {:induction false} ReadItems(entities: EntityTable, items: seq<Item>, rest: string, tags: seq<string>, p: State)
    requires AllWellFormed(entities, items) && p.stack != [] && p.pair == None
    requires tags != [] && rest != "" && rest[0] == '<'
    ensures Run(entities, ItemsText(items, rest), tags, p)
         == Run(entities, rest, tags, With(p, MeaningOf(entities, items, Top(p))))
    decreases items, 1
  {
    hide Run, ItemText, Meaning, WellFormed;
    if items == [] {
      assert [p.stack[0].(contents := p.stack[0].contents)] + p.stack[1..] == p.stack;
    } else {
      ItemsBegin(items[1..], rest);
      ReadItem(entities, items[0], ItemsText(items[1..], rest), tags, p);
      ReadItems(entities, items[1..], rest, tags, With(p, Meaning(entities, items[0], Top(p))));
    }
  }

  // ---- Documents.

  /** What may stand before the root element: white space, an instruction such as the XML declaration, a comment, a
      document type, or a CDATA section, which this parser is not told of. */
  datatype Misc =
    | Space(s: string)
    | Instruction(s: string)
    | Comment(s: string)
    | DocumentType(s: string)
    | Section(s: string)

  function MiscText(misc: Misc, rest: string): string {
    match misc
    case Space(s) => s + rest
    case Instruction(s) => "<?" + s + "?>" + rest
    case Comment(s) => "<!--" + s + "-->" + rest
    case DocumentType(s) => "<!" + s + ">" + rest
    case Section(s) => "<![CDATA[" + s + "]]>" + rest
  }

  function PrologText(prolog: seq<Misc>, rest: string): string {
    if prolog == [] then rest else MiscText(prolog[0], PrologText(prolog[1..], rest))
  }

  /** Blanks, tabs, line breaks, vertical tabs and form feeds. */
  predicate IsWhite(s: string) {
    forall c <- s :: c == ' ' || 9 <= c as int <= 13
  }

  predicate IsMisc(misc: Misc) {
    match misc
    case Space(s) => s != "" && IsWhite(s)
    case Instruction(s) => s != "" && s[0] != '>' && '?' !in s
    case Comment(s) => s != "" && s[0] != '>' && '-' !in s
    case DocumentType(s) => s != "" && s[0] != '-' && s[0] != '[' && '>' !in s
    case Section(s) => ']' !in s
  }

  function StopOf(misc: Misc): string
    requires !misc.Space?
  {
    match misc
    case Instruction(_) => "?>"
    case Comment(_) => "-->"
    case DocumentType(_) => ">"
    case Section(_) => "]]>"
  }

  lemma MiscToken(entities: EntityTable, misc: Misc, rest: string, inside: bool)
    requires IsMisc(misc) && !misc.Space?
    ensures NextToken(entities, MiscText(misc, rest), inside) == SkipPast(MiscText(misc, rest), StopOf(misc))
  {
    hide SkipPast;
    var s := MiscText(misc, rest);
    assert s[0] == '<' && s[1] == if misc.Instruction? then '?' else '!';
    if misc.DocumentType? {
      assert s[2] == misc.s[0];
    }
    if misc.Section? {
      assert s[2] == '[' && "<![CDATA[" <= s;
    }
  }

  lemma MiscCut(misc: Misc, rest: string)
    requires IsMisc(misc) && !misc.Space?
    ensures Cut(MiscText(misc, rest), StopOf(misc)).Some? && Cut(MiscText(misc, rest), StopOf(misc)).value.1 == rest
  {
    hide Cut;
    match misc
    case Instruction(s) => CutDeclaration(s, rest);
    case Comment(s) => CutComment(s, rest);
    case DocumentType(s) => CutAtFirst("<!" + s, ">", rest);
    case Section(s) => CutAtFirst("<![CDATA[" + s, "]]>", rest);
  }

  /** Instructions, comments, document types and CDATA sections are skipped wherever they stand. */
  lemma ReadMisc(entities: EntityTable, misc: Misc, rest: string, tags: seq<string>, p: State)
    requires IsMisc(misc) && !misc.Space?
    ensures Run(entities, MiscText(misc, rest), tags, p) == Run(entities, rest, tags, p)
  {
    MiscToken(entities, misc, rest, tags != []);
    MiscCut(misc, rest);
    hide NextToken, MiscText, Cut, StopOf, IsMisc;
  }

  lemma CutComment(s: string, rest: string)
    requires s != "" && s[0] != '>' && '-' !in s
    ensures Cut("<!--" + s + "-->" + rest, "-->") == Some(("<!--" + s, rest))
  {
    hide Cut;
    CutAtFirst(s, "-->", rest);
    var tail := s + "-->" + rest;
    var one := ['-'] + tail;
    var two := ['-'] + one;
    assert tail[0] == s[0] && one[1] == s[0] && two[2] == s[0];
    CutOne('-', tail, "-->");
    CutOne('-', one, "-->");
    CutOne('!', two, "-->");
    CutOne('<', ['!'] + two, "-->");
    assert "<!--" + s + "-->" + rest == ['<'] + (['!'] + two);
    assert ['<'] + (['!'] + (['-'] + (['-'] + s))) == "<!--" + s;
  }

  // ---- Documents.

  /** White space between what stands before the root element. */
  lemma ReadSpace(entities: EntityTable, s: string, rest: string, p: State)
    requires s != "" && IsWhite(s) && (rest == "" || rest[0] == '<')
    ensures Run(entities, s + rest, [], p) == Run(entities, rest, [], p)
  {
    assert s[0] in s && (s + rest)[0] == s[0];
    TextRunStops(s, rest);
    assert (s + rest)[|s|..] == rest;
    hide TextRun;
  }

  lemma PrologBegins(prolog: seq<Misc>, rest: string)
    requires rest != "" && rest[0] == '<' && (prolog != [] ==> !prolog[0].Space?)
    ensures PrologText(prolog, rest) != "" && PrologText(prolog, rest)[0] == '<'
  {
  }

  /** No two pieces of white space follow each other, which would be one. */
  predicate IsProlog(prolog: seq<Misc>) {
    && (forall m <- prolog :: IsMisc(m))
    && forall i :: 0 <= i < |prolog| - 1 ==> !(prolog[i].Space? && prolog[i + 1].Space?)
  }

  lemma {:induction false} ReadProlog(entities: EntityTable, prolog: seq<Misc>, rest: string, p: State)
    requires IsProlog(prolog) && rest != "" && rest[0] == '<'
    ensures Run(entities, PrologText(prolog, rest), [], p) == Run(entities, rest, [], p)
  {
    if prolog != [] {
      assert IsMisc(prolog[0]);
      hide Run;
      var behind := PrologText(prolog[1..], rest);
      if prolog[0].Space? {
        PrologBegins(prolog[1..], rest);
        ReadSpace(entities, prolog[0].s, behind, p);
      } else {
        ReadMisc(entities, prolog[0], behind, [], p);
      }
      ReadProlog(entities, prolog[1..], rest, p);
    }
  }

  predicate IsAttributes(attributes: string) {
    attributes == "" || (IsSpace(attributes[0]) && '>' !in attributes && attributes[|attributes| - 1] != '/')
  }

  /** From the root element's start tag to the start tag of the outermost dictionary. */
  lemma ReadRoot(entities: EntityTable, attributes: string, gap: string, inner: string, rest: string)
    requires IsAttributes(attributes) && IsGap(entities, gap) && IsGap(entities, inner)
    requires rest != "" && rest[0] == '<'
    ensures Run(entities, "<plist" + attributes + ">" + (gap + ("<dict>" + (inner + rest))), [], INITIAL)
         == Run(entities, rest, ["dict", "plist"], State(map[], [Frame(map[], "")], None))
  {
    hide Run, IsGap;
    var atDict := "<dict>" + (inner + rest);
    assert "<" + "dict" + ">" == "<dict>" && ["dict"] + ["plist"] == ["dict", "plist"];
    RootTag(entities, attributes, gap + atDict);
    ReadGap(entities, gap, atDict, ["plist"], INITIAL);
    RunStart(entities, "dict", inner + rest, ["plist"], INITIAL);
    ReadGap(entities, inner, rest, ["dict", "plist"], State(map[], [Frame(map[], "")], None));
  }

  lemma RootTag(entities: EntityTable, attributes: string, rest: string)
    requires IsAttributes(attributes)
    ensures Run(entities, "<plist" + attributes + ">" + rest, [], INITIAL) == Run(entities, rest, ["plist"], INITIAL)
  {
    assert "<" + "plist" == "<plist" && ["plist"] + [] == ["plist"];
    StartTagToken(entities, "plist", attributes, rest, false);
    hide NextToken, OnText, OnEnd, IsAttributes;
  }

  /** Any property list document, whoever wrote it: it is read as what its items mean. */
  lemma ReadDocument(entities: EntityTable, prolog: seq<Misc>, attributes: string, gap: string, inner: string,
                     items: seq<Item>, after: string, epilog: string)
    requires IsProlog(prolog) && IsAttributes(attributes) && IsWhite(epilog)
    requires IsGap(entities, gap) && IsGap(entities, inner) && IsGap(entities, after) && AllWellFormed(entities, items)
    ensures FromXml(entities, PrologText(prolog, "<plist" + attributes + ">" + (gap + ("<dict>" + (inner
              + ItemsText(items, "</dict>" + (after + ("</plist>" + epilog))))))))
         == Ok(Dict(MeaningOf(entities, items, map[])))
  {
    var root := "<plist" + attributes + ">" + (gap + ("<dict>" + (inner
                  + ItemsText(items, "</dict>" + (after + ("</plist>" + epilog))))));
    ReadContents(entities, attributes, gap, inner, items, after, epilog);
    hide Run, IsGap, AllWellFormed, MeaningOf, ItemsText, IsAttributes, IsWhite, IsProlog;
    ReadProlog(entities, prolog, root, INITIAL);
  }

  lemma ReadContents(entities: EntityTable, attributes: string, gap: string, inner: string, items: seq<Item>,
                     after: string, epilog: string)
    requires IsAttributes(attributes) && IsWhite(epilog)
    requires IsGap(entities, gap) && IsGap(entities, inner) && IsGap(entities, after) && AllWellFormed(entities, items)
    ensures Run(entities, "<plist" + attributes + ">" + (gap + ("<dict>" + (inner
              + ItemsText(items, "</dict>" + (after + ("</plist>" + epilog)))))), [], INITIAL)
         == Ok(State(MeaningOf(entities, items, map[]), [], None))
  {
    var m := MeaningOf(entities, items, map[]);
    var atEnd := "</dict>" + (after + ("</plist>" + epilog));
    ItemsBegin(items, atEnd);
    hide Run, IsGap, AllWellFormed, MeaningOf, ItemsText, IsAttributes, IsWhite;
    ReadRoot(entities, attributes, gap, inner, ItemsText(items, atEnd));
    ReadRootItems(entities, items, atEnd);
    ReadEnd(entities, after, epilog, m);
  }

  lemma ReadRootItems(entities: EntityTable, items: seq<Item>, rest: string)
    requires AllWellFormed(entities, items) && rest != "" && rest[0] == '<'
    ensures Run(entities, ItemsText(items, rest), ["dict", "plist"], State(map[], [Frame(map[], "")], None))
         == Run(entities, rest, ["dict", "plist"],
                State(map[], [Frame(MeaningOf(entities, items, map[]), "")], None))
  {
    hide Run, AllWellFormed, MeaningOf, ItemsText;
    var p := State(map[], [Frame(map[], "")], None);
    ReadItems(entities, items, rest, ["dict", "plist"], p);
    assert With(p, MeaningOf(entities, items, map[])).stack == [Frame(MeaningOf(entities, items, map[]), "")];
  }

  lemma ReadEnd(entities: EntityTable, after: string, epilog: string, m: map<string, Value>)
    requires IsGap(entities, after) && IsWhite(epilog)
    ensures Run(entities, "</dict>" + (after + ("</plist>" + epilog)), ["dict", "plist"],
                State(map[], [Frame(m, "")], None))
         == Ok(State(m, [], None))
  {
    hide Run, IsGap;
    var p := State(m, [], None);
    assert "</" + "dict" + ">" == "</dict>" && "</" + "plist" + ">" == "</plist>";
    assert ["dict"] + ["plist"] == ["dict", "plist"] && ["plist"] + [] == ["plist"];
    RunEnd(entities, "dict", after + ("</plist>" + epilog), ["plist"], State(map[], [Frame(m, "")], None));
    ReadGap(entities, after, "</plist>" + epilog, ["plist"], p);
    RunEnd(entities, "plist", epilog, [], p);
    AtTheEnd(entities, p);
    if epilog != "" {
      ReadSpace(entities, epilog, "", p);
      assert epilog + "" == epilog;
    }
  }

  lemma AtTheEnd(entities: EntityTable, p: State)
    ensures Run(entities, "", [], p) == Ok(p)
  {
  }

  // ---- A document that breaks off inside a tag: what has been read of it counts, at every level.

  /** Items, and a dictionary opened behind them. */
  datatype Level = Level(items: seq<Item>, key: string, gap: string, inner: string)

  function OpenText(levels: seq<Level>, items: seq<Item>): string {
    if levels == [] then ItemsText(items, "<")
    else
      var l := levels[0];
      ItemsText(l.items, "<key>" + l.key + "</key>" + (l.gap + ("<dict>" + (l.inner + OpenText(levels[1..], items)))))
  }

  predicate IsLevel(entities: EntityTable, l: Level) {
    AllWellFormed(entities, l.items) && IsText(entities, l.key) && IsGap(entities, l.gap) && IsGap(entities, l.inner)
  }

  function OpenMeaning(entities: EntityTable, levels: seq<Level>, items: seq<Item>, m: map<string, Value>)
    : map<string, Value>
    requires AllWellFormed(entities, items) && forall i :: 0 <= i < |levels| ==> IsLevel(entities, levels[i])
  {
    if levels == [] then MeaningOf(entities, items, m)
    else
      assert IsLevel(entities, levels[0]);
      MeaningOf(entities, levels[0].items, m)
        [Unescape(entities, levels[0].key).value := Dict(OpenMeaning(entities, levels[1..], items, map[]))]
  }

  lemma OpenBegins(levels: seq<Level>, items: seq<Item>)
    ensures OpenText(levels, items) != "" && OpenText(levels, items)[0] == '<'
  {
    hide ItemsText;
    if levels == [] {
      ItemsBegin(items, "<");
    } else {
      var l := levels[0];
      ItemsBegin(l.items,
                 "<key>" + l.key + "</key>" + (l.gap + ("<dict>" + (l.inner + OpenText(levels[1..], items)))));
    }
  }

  lemma BreaksOff(entities: EntityTable, tags: seq<string>, p: State)
    ensures Run(entities, "<", tags, p) == Ok(p)
  {
    assert "<"[1..] == "";
  }

  /** Text that nothing follows is not read. */
  lemma BreaksOffInText(entities: EntityTable, raw: string, tags: seq<string>, p: State)
    requires '<' !in raw && tags != []
    ensures Run(entities, raw, tags, p) == Ok(p)
  {
    TextRunStops(raw, "");
    assert raw + "" == raw;
    if raw != "" { assert raw[0] in raw; }
    hide TextRun, Unescape;
  }

  /** The dictionary opened last goes into the one below. */
  lemma CollapseInner(p: State, key: string, m: map<string, Value>)
    requires p.stack != []
    ensures Collapse(State(p.root, [Frame(m, key)] + p.stack, None)) == Collapse(With(p, Top(p)[key := Dict(m)]))
  {
    var q := State(p.root, [Frame(m, key)] + p.stack, None);
    assert q.stack[1..] == p.stack;
  }

  lemma {:induction false} ReadOpen(entities: EntityTable, levels: seq<Level>, items: seq<Item>, tags: seq<string>,
                                    p: State)
    requires AllWellFormed(entities, items) && forall i :: 0 <= i < |levels| ==> IsLevel(entities, levels[i])
    requires p.stack != [] && p.pair == None && tags != []
    ensures var r := Run(entities, OpenText(levels, items), tags, p);
            r.Ok? && Collapse(r.value) == Collapse(With(p, OpenMeaning(entities, levels, items, Top(p))))
  {
    if levels == [] {
      hide Run;
      ReadItems(entities, items, "<", tags, p);
      BreaksOff(entities, tags, With(p, MeaningOf(entities, items, Top(p))));
    } else {
      assert IsLevel(entities, levels[0]);
      var l := levels[0];
      var key, below := Unescape(entities, l.key).value, With(p, MeaningOf(entities, l.items, Top(p)));
      var inside := OpenText(levels[1..], items);
      var m := OpenMeaning(entities, levels[1..], items, map[]);
      OpenBegins(levels[1..], items);
      ReadLevel(entities, l, inside, tags, p);
      hide Run, OpenText, IsLevel, AllWellFormed, Collapse, ItemsText;
      var q := State(p.root, [Frame(map[], key)] + below.stack, None);
      ReadOpen(entities, levels[1..], items, ["dict"] + tags, q);
      assert With(q, m) == State(below.root, [Frame(m, key)] + below.stack, None);
      CollapseInner(below, key, m);
      assert With(below, Top(below)[key := Dict(m)]) == With(p, Top(below)[key := Dict(m)]);
    }
  }

  lemma ReadLevel(entities: EntityTable, l: Level, inside: string, tags: seq<string>, p: State)
    requires IsLevel(entities, l) && p.stack != [] && p.pair == None && tags != []
    requires inside != "" && inside[0] == '<'
    ensures var below := With(p, MeaningOf(entities, l.items, Top(p)));
            Run(entities, ItemsText(l.items, "<key>" + l.key + "</key>" + (l.gap + ("<dict>" + (l.inner + inside)))),
                tags, p)
            == Run(entities, inside, ["dict"] + tags,
                   State(p.root, [Frame(map[], Unescape(entities, l.key).value)] + below.stack, None))
  {
    hide Run, AllWellFormed, MeaningOf, ItemsText, Unescape, IsGap;
    var key, below := Unescape(entities, l.key).value, With(p, MeaningOf(entities, l.items, Top(p)));
    var atDict := "<dict>" + (l.inner + inside);
    assert "<" + "dict" + ">" == "<dict>";
    ReadItems(entities, l.items, "<key>" + l.key + "</key>" + (l.gap + atDict), tags, p);
    ReadKeyAndGap(entities, l.key, l.gap, atDict, tags, below);
    RunStart(entities, "dict", l.inner + inside, tags, Awaiting(below, key));
    ReadGap(entities, l.inner, inside, ["dict"] + tags, OnStart(Awaiting(below, key), "dict").value);
  }

  lemma ReadBrokenOff(entities: EntityTable, prolog: seq<Misc>, attributes: string, gap: string, inner: string,
                      levels: seq<Level>, items: seq<Item>)
    requires IsProlog(prolog) && IsAttributes(attributes) && IsGap(entities, gap) && IsGap(entities, inner)
    requires AllWellFormed(entities, items) && forall i :: 0 <= i < |levels| ==> IsLevel(entities, levels[i])
    ensures FromXml(entities, PrologText(prolog, "<plist" + attributes + ">"
                      + (gap + ("<dict>" + (inner + OpenText(levels, items))))))
         == Ok(Dict(OpenMeaning(entities, levels, items, map[])))
  {
    var p, m := State(map[], [Frame(map[], "")], None), OpenMeaning(entities, levels, items, map[]);
    OpenBegins(levels, items);
    ReadOpen(entities, levels, items, ["dict", "plist"], p);
    assert Collapse(With(p, m)) == m;
    hide Run, Collapse, IsGap, AllWellFormed, IsLevel, OpenMeaning, OpenText, IsAttributes, IsProlog;
    ReadProlog(entities, prolog, "<plist" + attributes + ">"
                                 + (gap + ("<dict>" + (inner + OpenText(levels, items)))), INITIAL);
    ReadRoot(entities, attributes, gap, inner, OpenText(levels, items));
  }

  // ---- What is refused.

  /** An end tag that does not match the innermost element that is open. */
  lemma MismatchedEnd(entities: EntityTable, name: string, rest: string, tags: seq<string>, p: State)
    requires IsElementName(name) && (tags == [] || tags[0] != name)
    ensures Run(entities, "</" + name + ">" + rest, tags, p) == Err(MarkupError)
  {
    EndTagToken(entities, name, rest, tags != []);
    hide NextToken;
  }

  /** Text outside the root element. */
  lemma StrayText(entities: EntityTable, raw: string, rest: string, p: State)
    requires '<' !in raw && !IsWhite(raw) && (rest == "" || rest[0] == '<')
    ensures Run(entities, raw + rest, [], p) == Err(MarkupError)
  {
    assert raw != "" && raw[0] in raw && (raw + rest)[0] == raw[0];
    TextRunStops(raw, rest);
    hide TextRun;
  }

  /** A reference that stands for nothing, or does not end. */
  lemma BadReference(entities: EntityTable, raw: string, rest: string, tags: seq<string>, p: State)
    requires raw != "" && '<' !in raw && Unescape(entities, raw) == None && tags != [] && rest != "" && rest[0] == '<'
    ensures Run(entities, raw + rest, tags, p) == Err(MarkupError)
  {
    assert raw[0] in raw && (raw + rest)[0] == raw[0] && (raw + rest)[|raw|..] == rest;
    TextRunStops(raw, rest);
    hide TextRun, Unescape;
  }

  /** A tag without a name. */
  lemma NamelessTag(entities: EntityTable, rest: string, tags: seq<string>, p: State)
    ensures Run(entities, "<" + "" + ">" + rest, tags, p) == Err(MarkupError)
    ensures Run(entities, "<" + "/" + ">" + rest, tags, p) == Err(MarkupError)
  {
    NoName(entities, rest, tags != []);
    TagUpTo(entities, "/", rest, tags != []);
    hide NextToken, Cut;
  }

  lemma NoName(entities: EntityTable, rest: string, inside: bool)
    ensures NextToken(entities, "<" + "" + ">" + rest, inside) == Malformed
  {
    var s := "<" + "" + ">" + rest;
    CutAtFirst("", ">", rest);
    assert s[1] == '>' && s[1..] == "" + ">" + rest;
    hide Cut;
  }

  /** A dictionary under an empty key. */
  lemma EmptyKeyFails(entities: EntityTable, short: bool, rest: string, tags: seq<string>, p: State)
    requires p.stack != [] && p.pair == None && tags != []
    ensures Run(entities, EmptyElement("key", short) + ("<dict>" + rest), tags, p) == Err(NullKey)
  {
    var q := p.(pair := Some(Pair(None, None)));
    assert OnStart(p, "key") == Ok(q) && OnEnd(q, "key") == q && OnStart(q, "dict") == Err(NullKey);
    hide OnStart, OnEnd;
    ReadBare(entities, "key", short, "<dict>" + rest, tags, p);
    OpenFails(entities, rest, tags, q);
    hide Run;
  }

  lemma OpenFails(entities: EntityTable, rest: string, tags: seq<string>, q: State)
    requires OnStart(q, "dict") == Err(NullKey)
    ensures Run(entities, "<dict>" + rest, tags, q) == Err(NullKey)
  {
    assert "<" + "dict" + "" + ">" == "<dict>";
    StartTagToken(entities, "dict", "", rest, tags != []);
    hide NextToken, OnStart;
  }

  // ---- References and line breaks in text.

  lemma {:induction false} UnescapeBehind(entities: EntityTable, plain: string, raw: string)
    requires forall c <- plain :: c != '&' && c != '\r'
    ensures Unescape(entities, plain + raw)
         == match Unescape(entities, raw) case None => None case Some(t) => Some(plain + t)
  {
    if plain == "" {
      assert plain + raw == raw;
      hide Unescape;
      assert Unescape(entities, raw).Some? ==> "" + Unescape(entities, raw).value == Unescape(entities, raw).value;
    } else {
      hide Unescape;
      assert plain[0] in plain && plain + raw == [plain[0]] + (plain[1..] + raw);
      assert forall c <- plain[1..] :: c in plain;
      UnescapeOne(entities, plain[0], plain[1..] + raw);
      UnescapeBehind(entities, plain[1..], raw);
      if Unescape(entities, raw).Some? {
        Regroup(plain, Unescape(entities, raw).value);
      }
    }
  }

  lemma Regroup(a: string, b: string)
    requires a != ""
    ensures [a[0]] + (a[1..] + b) == a + b
  {
  }

  lemma UnescapeOne(entities: EntityTable, c: char, raw: string)
    requires c != '&' && c != '\r'
    ensures Unescape(entities, [c] + raw) == Prefixed(c, Unescape(entities, raw))
  {
    assert ([c] + raw)[1..] == raw;
  }

  /** `&name;` stands for the character of that name, if there is one. */
  lemma UnescapeReference(entities: EntityTable, name: string, raw: string)
    requires ';' !in name
    ensures Unescape(entities, "&" + name + ";" + raw)
         == match (entities(name), Unescape(entities, raw))
            case (Some(c), Some(t)) => Some([c] + t)
            case _ => None
  {
    CutAtFirst(name, ";", raw);
    var s := "&" + name + ";" + raw;
    assert s[0] == '&' && s[1..] == name + ";" + raw;
    hide Cut;
  }

  /** A reference that does not end stands for nothing. */
  lemma {:induction false} UnfinishedReference(entities: EntityTable, raw: string)
    requires ';' !in raw
    ensures Unescape(entities, "&" + raw) == None
  {
    NoCut(raw);
    assert ("&" + raw)[1..] == raw;
  }

  lemma {:induction false} NoCut(s: string)
    requires ';' !in s
    ensures Cut(s, ";") == None
  {
    if s != "" { NoCut(s[1..]); }
  }

  /** Every kind of line break is read as a line feed. */
  lemma UnescapeLineBreak(entities: EntityTable, raw: string)
    requires raw == "" || raw[0] != '\n'
    ensures Unescape(entities, "\r\n" + raw) == Unescape(entities, "\n" + raw) == Unescape(entities, "\r" + raw)
  {
    assert ("\r\n" + raw)[2..] == raw && ("\r" + raw)[1..] == raw && ("\n" + raw)[1..] == raw;
  }
}
