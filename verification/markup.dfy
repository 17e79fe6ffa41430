/** The part of GLib's GMarkup parser that property lists meet: tags, text runs with entity references,
    and the passthrough of declarations, comments and CDATA sections. The entity table is a parameter. */
module Markup {
  import opened Outcomes
  import opened Decimals

  /** What `&name;` stands for; `None` is an error. */
  type EntityTable = string -> Option<char>

  datatype Token =
    | EndOfInput
    | Malformed
    | Skipped(rest: string)
    | Text(text: string, rest: string)
    | StartTag(name: string, rest: string)
    | EndTag(name: string, rest: string)
    | EmptyTag(name: string, rest: string)

  /** The parts before and after the first occurrence of `stop`. */
  function Cut(s: string, stop: string): (r: Option<(string, string)>)
    requires stop != ""
    ensures r.Some? ==> s == r.value.0 + stop + r.value.1
  {
    if stop <= s then Some(("", s[|stop|..]))
    else if s == "" then None
    else
      match Cut(s[1..], stop)
      case None => None
      case Some((before, after)) => Some(([s[0]] + before, after))
  }

  /** The longest prefix of `s` without a `<`. */
  function TextRun(s: string): (r: string)
    ensures r <= s && forall c <- r :: c != '<'
    ensures |r| < |s| ==> s[|r|] == '<'
  {
    if s == "" || s[0] == '<' then "" else [s[0]] + TextRun(s[1..])
  }

  predicate AllSpace(s: string) {
    forall c <- s :: IsSpace(c)
  }

  function NameOf(tag: string): string {
    if tag == "" || IsSpace(tag[0]) then "" else [tag[0]] + NameOf(tag[1..])
  }

  /** Resolves entity references and turns CR LF and lone CR into LF (XML 1.0, section 2.11). */
  function Unescape(entities: EntityTable, raw: string): (r: Option<string>)
    ensures r.Some? && raw != "" ==> r.value != ""
    decreases |raw|
  {
    if raw == "" then Some("")
    else if raw[0] == '&' then
      match Cut(raw[1..], ";")
      case None => None
      case Some((name, after)) =>
        match entities(name)
        case None => None
        case Some(c) => Prefixed(c, Unescape(entities, after))
    else if raw[0] == '\r' then
      Prefixed('\n', Unescape(entities, if |raw| > 1 && raw[1] == '\n' then raw[2..] else raw[1..]))
    else
      Prefixed(raw[0], Unescape(entities, raw[1..]))
  }

  function Prefixed(c: char, tail: Option<string>): Option<string> {
    match tail
    case None => None
    case Some(t) => Some([c] + t)
  }

  /** What follows a token is a proper suffix of the input. */
  ghost predicate Advances(t: Token, s: string) {
    t != EndOfInput && t != Malformed ==> |t.rest| < |s| && t.rest == s[|s| - |t.rest|..]
  }

  /** The next token; `inside` says whether an element is open. */
  function NextToken(entities: EntityTable, s: string, inside: bool): (t: Token)
    ensures Advances(t, s)
  {
    if s == "" then EndOfInput
    else if s[0] != '<' then TextToken(entities, s, inside)
    else if "<?" <= s then SkipPast(s, "?>")
    else if "<!--" <= s then SkipPast(s, "-->")
    else if "<![CDATA[" <= s then SkipPast(s, "]]>")
    else if "<!" <= s then SkipPast(s, ">")
    else TagToken(s)
  }

  function SkipPast(s: string, stop: string): (t: Token)
    requires stop != ""
    ensures Advances(t, s) && (t == EndOfInput || t.Skipped?)
  {
    match Cut(s, stop)
    case None => EndOfInput
    case Some((_, rest)) => Skipped(rest)
  }

  /** A text run is reported once the `<` that ends it is seen. */
  function TextToken(entities: EntityTable, s: string, inside: bool): (t: Token)
    requires s != "" && s[0] != '<'
    ensures Advances(t, s)
  {
    var raw := TextRun(s);
    if !inside then
      if !AllSpace(raw) then Malformed else Skipped(s[|raw|..])
    else if |raw| == |s| then EndOfInput
    else
      match Unescape(entities, raw)
      case None => Malformed
      case Some(text) => Text(text, s[|raw|..])
  }

  function TagToken(s: string): (t: Token)
    requires s != "" && s[0] == '<'
    ensures Advances(t, s)
  {
    match Cut(s[1..], ">")
    case None => EndOfInput
    case Some((inner, rest)) =>
      if inner == "" then Malformed
      else if inner[0] == '/' then
        if NameOf(inner[1..]) == "" then Malformed else EndTag(NameOf(inner[1..]), rest)
      else if inner[|inner| - 1] == '/' then
        if NameOf(inner[..|inner| - 1]) == "" then Malformed else EmptyTag(NameOf(inner[..|inner| - 1]), rest)
      else
        if NameOf(inner) == "" then Malformed else StartTag(NameOf(inner), rest)
  }

  // Tokens of the text the writer produces.

  lemma {:induction false} CutAtFirst(before: string, stop: string, after: string)
    requires stop != "" && stop[0] !in before
    ensures Cut(before + stop + after, stop) == Some((before, after))
  {
    var s := before + stop + after;
    if before == "" {
      assert s == stop + after && s[|stop|..] == after;
    } else {
      assert s[0] == before[0] && s[0] in before && s[0] != stop[0];
      assert forall c <- before[1..] :: c in before;
      assert s[1..] == before[1..] + stop + after;
      CutAtFirst(before[1..], stop, after);
      assert before == [before[0]] + before[1..];
    }
  }

  lemma {:induction false} TextRunStops(raw: string, rest: string)
    requires forall c <- raw :: c != '<'
    requires rest == "" || rest[0] == '<'
    ensures TextRun(raw + rest) == raw
  {
    if raw != "" {
      assert raw[0] in raw && (raw + rest)[1..] == raw[1..] + rest;
      assert forall c <- raw[1..] :: c in raw;
      TextRunStops(raw[1..], rest);
    } else {
      assert raw + rest == rest;
    }
  }

  lemma {:induction false} UnescapePlain(entities: EntityTable, raw: string)
    requires forall c <- raw :: c != '&' && c != '\r'
    ensures Unescape(entities, raw) == Some(raw)
  {
    if raw != "" {
      assert raw[0] in raw && raw == [raw[0]] + raw[1..];
      assert forall c <- raw[1..] :: c in raw;
      UnescapePlain(entities, raw[1..]);
    }
  }

  lemma {:induction false} NameOfPlain(name: string, attributes: string)
    requires forall c <- name :: !IsSpace(c)
    requires attributes == "" || IsSpace(attributes[0])
    ensures NameOf(name + attributes) == name
  {
    if name != "" {
      assert name[0] in name && (name + attributes)[1..] == name[1..] + attributes;
      NameOfPlain(name[1..], attributes);
    } else {
      assert name + attributes == attributes;
    }
  }

  predicate IsElementName(name: string) {
    name != "" && forall c <- name :: 'a' <= c <= 'z'
  }

  lemma PlainTextToken(entities: EntityTable, raw: string, rest: string)
    requires raw != "" && forall c <- raw :: c != '<' && c != '&' && c != '\r'
    requires rest != "" && rest[0] == '<'
    ensures NextToken(entities, raw + rest, true) == Text(raw, rest)
  {
    TextRunStops(raw, rest);
    UnescapePlain(entities, raw);
    assert raw[0] in raw && (raw + rest)[0] == raw[0];
    assert (raw + rest)[|raw|..] == rest;
  }

  /** A `<` that opens no declaration, comment or CDATA section begins a tag, which ends at the next `>`. */
  lemma TagUpTo(entities: EntityTable, inner: string, rest: string, inside: bool)
    requires inner != "" && inner[0] != '?' && inner[0] != '!' && '>' !in inner
    ensures NextToken(entities, "<" + inner + ">" + rest, inside) == TagToken("<" + inner + ">" + rest)
    ensures Cut(("<" + inner + ">" + rest)[1..], ">") == Some((inner, rest))
  {
    var s := "<" + inner + ">" + rest;
    assert s[0] == '<' && s[1] == inner[0];
    CutAtFirst(inner, ">", rest);
    hide Cut, TagToken;
    assert s[1..] == inner + ">" + rest;
  }

  lemma StartTagToken(entities: EntityTable, name: string, attributes: string, rest: string, inside: bool)
    requires IsElementName(name)
    requires attributes == "" || (IsSpace(attributes[0]) && '>' !in attributes && attributes[|attributes| - 1] != '/')
    ensures NextToken(entities, "<" + name + attributes + ">" + rest, inside) == StartTag(name, rest)
  {
    hide Cut, NextToken, NameOf;
    var inner := name + attributes;
    assert "<" + name + attributes + ">" + rest == "<" + inner + ">" + rest;
    assert name[0] in name && name[|name| - 1] in name && inner[0] == name[0];
    assert inner[|inner| - 1] == if attributes == "" then name[|name| - 1] else attributes[|attributes| - 1];
    NameOfPlain(name, attributes);
    TagUpTo(entities, inner, rest, inside);
  }

  lemma EndTagToken(entities: EntityTable, name: string, rest: string, inside: bool)
    requires IsElementName(name)
    ensures NextToken(entities, "</" + name + ">" + rest, inside) == EndTag(name, rest)
  {
    hide Cut, NextToken, NameOf;
    var inner := "/" + name;
    assert "</" + name + ">" + rest == "<" + inner + ">" + rest;
    assert inner[1..] == name && name + "" == name;
    NameOfPlain(name, "");
    TagUpTo(entities, inner, rest, inside);
  }

  lemma EmptyTagToken(entities: EntityTable, name: string, rest: string, inside: bool)
    requires IsElementName(name)
    ensures NextToken(entities, "<" + name + "/>" + rest, inside) == EmptyTag(name, rest)
  {
    hide Cut, NextToken, NameOf;
    var inner := name + "/";
    assert "<" + name + "/>" + rest == "<" + inner + ">" + rest;
    assert name[0] in name && inner[0] == name[0] && inner[..|inner| - 1] == name && name + "" == name;
    NameOfPlain(name, "");
    TagUpTo(entities, inner, rest, inside);
  }
}
