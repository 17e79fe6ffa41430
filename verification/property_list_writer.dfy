/** The recursive pretty-printer of property lists. */
module PropertyListWriter {
  import opened Decimals
  import opened PropertyLists

  const DECLARATION_BODY: string := "xml version=\"1.0\" encoding=\"UTF-8\""
  const PUBLIC_ID: string := "\"-//Apple//DTD PLIST 1.0//EN\""
  const SYSTEM_ID: string := "\"http://www.apple.com/DTDs/" + "PropertyList-1.0.dtd\""
  const DOCTYPE_BODY: string := "!DOCTYPE plist PUBLIC " + PUBLIC_ID + " " + SYSTEM_ID
  const PLIST_ATTRIBUTES: string := " version=\"1.0\""

  const XML_DECLARATION: string := "<?" + DECLARATION_BODY + "?>"
  const DOCTYPE: string := "<" + DOCTYPE_BODY + ">"
  const PLIST_START: string := "<plist" + PLIST_ATTRIBUTES + ">"
  const PLIST_END: string := "</plist>"

  function Tabs(level: nat): string {
    if level == 0 then "" else "\t" + Tabs(level - 1)
  }

  function Line(level: nat, content: string): string {
    Tabs(level) + content + "\n"
  }

  function Tag(name: string, content: string): string {
    "<" + name + ">" + content + "</" + name + ">"
  }

  function DictText(level: nat, d: Value): string
    requires d.Dict?
    decreases d, 1
  {
    assert forall k <- SortedKeys(d.entries.Keys) :: k in d.entries;
    Line(level, "<dict>") + EntriesText(level + 1, d, SortedKeys(d.entries.Keys)) + Line(level, "</dict>")
  }

  function EntriesText(level: nat, d: Value, keys: seq<string>): string
    requires d.Dict? && forall k <- keys :: k in d.entries
    decreases d, 0, |keys|
  {
    if keys == [] then ""
    else
      Line(level, Tag("key", keys[0])) + ValueText(level, d.entries[keys[0]]) + EntriesText(level, d, keys[1..])
  }

  function ValueText(level: nat, v: Value): string
    decreases v, 2
  {
    match v
    case Str(s) => Line(level, Tag("string", s))
    case Int(i) => Line(level, Tag("integer", PrintInt(i)))
    case UInt(u) => Line(level, Tag("integer", PrintInt(u)))
    case Dict(_) => DictText(level, v)
  }

  /** The document written for a whole property list. */
  function ToXml(d: Value): string
    requires d.Dict?
  {
    Line(0, XML_DECLARATION) + Line(0, DOCTYPE) + Line(0, PLIST_START) + DictText(0, d) + Line(0, PLIST_END)
  }

  class XmlWriter {
    var builder: string
    var level: nat

    constructor ()
      ensures builder == "" && level == 0
    {
      builder, level := "", 0;
    }

    method WriteLine(line: string)
      modifies this`builder
      ensures builder == old(builder) + Line(level, line)
    {
      ghost var start := builder;
      var i := 0;
      while i != level
        invariant i <= level
        invariant builder == start + Tabs(i)
      {
        TabsAppend(i);
        builder := builder + "\t";
        i := i + 1;
      }
      builder := builder + line + "\n";
    }

    method WriteTag(name: string, content: string)
      modifies this`builder
      ensures builder == old(builder) + Line(level, Tag(name, content))
    {
      WriteLine("<" + name + ">" + content + "</" + name + ">");
    }

    method Write(plist: Value)
      requires plist.Dict?
      modifies this
      ensures level == old(level)
      ensures builder == old(builder) + if level == 0 then ToXml(plist) else DictText(level, plist)
      decreases plist, 1
    {
      hide Line, EntriesText;
      ghost var start := builder;
      ghost var header := if level == 0 then Line(0, XML_DECLARATION) + Line(0, DOCTYPE) + Line(0, PLIST_START) else "";
      if level == 0 {
        WriteLine(XML_DECLARATION);
        WriteLine(DOCTYPE);
        WriteLine(PLIST_START);
      }
      assert builder == start + header;

      WriteLine("<dict>");
      level := level + 1;
      WriteEntries(plist, SortedKeys(plist.entries.Keys));
      level := level - 1;
      WriteLine("</dict>");
      assert builder == start + header + DictText(level, plist) by {
        Assoc(start + header, Line(level, "<dict>"), EntriesText(level + 1, plist, SortedKeys(plist.entries.Keys)),
              Line(level, "</dict>"));
      }

      if level == 0 {
        WriteLine(PLIST_END);
        Assoc(start, header, DictText(level, plist), Line(0, PLIST_END));
      }
    }

    method WriteValue(val: Value)
      requires level > 0
      modifies this
      ensures level == old(level)
      ensures builder == old(builder) + ValueText(level, val)
      decreases val, 2
    {
      match val {
        case Str(s) => WriteTag("string", s);
        case Int(i) => WriteTag("integer", PrintInt(i));
        case UInt(u) => WriteTag("integer", PrintInt(u));
        case Dict(_) => Write(val);
      }
    }

    method WriteEntries(plist: Value, keys: seq<string>)
      requires plist.Dict? && forall k <- keys :: k in plist.entries
      requires level > 0
      modifies this
      ensures level == old(level)
      ensures builder == old(builder) + EntriesText(level, plist, keys)
      decreases plist, 0
    {
      for n := 0 to |keys|
        invariant level == old(level)
        invariant builder + EntriesText(level, plist, keys[n..]) == old(builder) + EntriesText(level, plist, keys)
      {
        var val := plist.entries[keys[n]];
        EntriesStep(level, plist, keys, n);
        hide Line, Tag, ValueText, EntriesText;
        ghost var before := builder;
        WriteTag("key", keys[n]);
        WriteValue(val);
        Assoc(before, Line(level, Tag("key", keys[n])), ValueText(level, val),
              EntriesText(level, plist, keys[n + 1..]));
      }
      assert keys[|keys|..] == [];
    }
  }

  lemma Assoc(a: string, b: string, c: string, d: string)
    ensures a + b + c + d == a + (b + c + d)
  {
  }

  lemma {:induction false} TabsAppend(level: nat)
    ensures Tabs(level) + "\t" == Tabs(level + 1)
  {
    if level > 0 { TabsAppend(level - 1); }
  }

  lemma EntriesStep(level: nat, d: Value, keys: seq<string>, n: nat)
    requires d.Dict? && n < |keys| && forall k <- keys :: k in d.entries
    ensures EntriesText(level, d, keys[n..])
         == Line(level, Tag("key", keys[n])) + ValueText(level, d.entries[keys[n]])
            + EntriesText(level, d, keys[n + 1..])
  {
    assert keys[n..][0] == keys[n] && keys[n..][1..] == keys[n + 1..];
  }
}
