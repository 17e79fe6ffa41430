/** What a written property list looks like, character by character. */
module PropertyListExample {
  import opened PropertyLists
  import opened Decimals
  import opened PropertyListWriter

  const INNER: Value := Dict(map["C" := Str("x")])
  const LIST: Value := Dict(map["B" := Int(-5), "A" := INNER])

  /** Keys in ascending order, a nested dictionary one level deeper, one tab a level, one line an element. */
  lemma WrittenExample()
    ensures ToXml(LIST) == "<?xml version=\"1.0\" encoding=\"UTF-8\"?>\n"
      + ("<!DOCTYPE plist PUBLIC " + "\"-//Apple//DTD PLIST 1.0//EN\"" + " "
         + ("\"http://www.apple.com/DTDs/" + "PropertyList-1.0.dtd\"") + ">\n")
      + "<plist version=\"1.0\">\n"
      + ("<dict>\n" + ExampleEntries() + "</dict>\n")
      + "</plist>\n"
  {
    WrittenHeader();
    WrittenDict();
    hide XML_DECLARATION, DOCTYPE, PLIST_START, DictText, ExampleEntries;
    assert Line(0, PLIST_END) == "</plist>\n";
  }

  function ExampleEntries(): string {
    "\t" + "<key>A</key>" + "\n" +
    ("\t" + "<dict>" + "\n" +
     ("\t\t" + "<key>C</key>" + "\n" + ("\t\t" + "<string>x</string>" + "\n") + "") +
     ("\t" + "</dict>" + "\n")) +
    ("\t" + "<key>B</key>" + "\n" + ("\t" + "<integer>-5</integer>" + "\n") + "")
  }

  lemma WrittenHeader()
    ensures Line(0, XML_DECLARATION) == "<?xml version=\"1.0\" encoding=\"UTF-8\"?>\n"
    ensures Line(0, DOCTYPE) == "<!DOCTYPE plist PUBLIC " + "\"-//Apple//DTD PLIST 1.0//EN\"" + " "
                                + ("\"http://www.apple.com/DTDs/" + "PropertyList-1.0.dtd\"") + ">\n"
    ensures Line(0, PLIST_START) == "<plist version=\"1.0\">\n"
  {
    WrittenDeclaration();
    WrittenStart();
    LineOf(PUBLIC_ID, SYSTEM_ID);
    hide XML_DECLARATION, PLIST_START, Line;
  }

  lemma WrittenDeclaration()
    ensures Line(0, XML_DECLARATION) == "<?xml version=\"1.0\" encoding=\"UTF-8\"?>\n"
  {
  }

  lemma WrittenStart()
    ensures Line(0, PLIST_START) == "<plist version=\"1.0\">\n"
  {
  }

  lemma LineOf(publicId: string, systemId: string)
    ensures Line(0, "<" + ("!DOCTYPE plist PUBLIC " + publicId + " " + systemId) + ">")
         == "<!DOCTYPE plist PUBLIC " + publicId + " " + systemId + ">\n"
  {
    assert "<" + "!DOCTYPE plist PUBLIC " == "<!DOCTYPE plist PUBLIC " && ">" + "\n" == ">\n";
  }

  lemma TabsOf()
    ensures Tabs(0) == "" && Tabs(1) == "\t" && Tabs(2) == "\t\t"
  {
  }

  lemma KeyTag(c: char)
    ensures Tag("key", [c]) == ['<', 'k', 'e', 'y', '>', c, '<', '/', 'k', 'e', 'y', '>']
  {
  }

  lemma StringTag()
    ensures Tag("string", "x") == "<string>x</string>"
  {
  }

  lemma IntegerTag()
    ensures Tag("integer", "-5") == "<integer>-5</integer>" && PrintInt(-5) == "-5"
  {
  }

  lemma WrittenInner()
    ensures EntriesText(2, INNER, ["C"]) == "\t\t" + "<key>C</key>" + "\n" + ("\t\t" + "<string>x</string>" + "\n") + ""
  {
    TabsOf();
    KeyTag('C');
    StringTag();
    hide Tabs, Tag;
    assert ["C"][1..] == [] && EntriesText(2, INNER, []) == "";
  }

  lemma WrittenDict()
    ensures DictText(0, LIST) == "<dict>\n" + ExampleEntries() + "</dict>\n"
  {
    WrittenEntries();
    SortedPair();
    TabsOf();
    assert LIST.entries.Keys == {"A", "B"};
    hide EntriesText, SortedKeys, ExampleEntries, Tabs;
    assert Line(0, "<dict>") == "<dict>\n" && Line(0, "</dict>") == "</dict>\n";
    hide Line;
    assert DictText(0, LIST) == Line(0, "<dict>") + EntriesText(1, LIST, ["A", "B"]) + Line(0, "</dict>");
  }

  lemma WrittenEntries()
    ensures EntriesText(1, LIST, ["A", "B"]) == ExampleEntries()
  {
    WrittenInner();
    TabsOf();
    KeyTag('A');
    KeyTag('B');
    IntegerTag();
    SortedOne();
    assert INNER.entries.Keys == {"C"} && "A"[0] == 'A' && "B"[0] == 'B';
    hide Tabs, Tag, PrintInt, SortedKeys;
    assert DictText(1, INNER) == Line(1, "<dict>") + EntriesText(2, INNER, ["C"]) + Line(1, "</dict>");
    hide DictText;
    assert ["A", "B"][1..] == ["B"] && ["B"][1..] == [] && EntriesText(1, LIST, []) == "";
    assert EntriesText(1, LIST, ["B"]) == Line(1, Tag("key", "B")) + Line(1, Tag("integer", "-5")) + "";
  }

  lemma SortedOne()
    ensures SortedKeys({"C"}) == ["C"]
  {
  }

  lemma SortedPair()
    ensures SortedKeys({"A", "B"}) == ["A", "B"]
  {
    var sorted := SortedKeys({"A", "B"});
    assert "A"[0] == 'A' && "B"[0] == 'B';
    assert "A" in sorted && "B" in sorted;
  }
}
