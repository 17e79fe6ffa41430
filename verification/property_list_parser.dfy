/** The event-driven property list parser: GMarkup callbacks, a stack of open dictionaries and a
    half-built key/value pair. */
module PropertyListParser {
  import opened Outcomes
  import opened Decimals
  import opened PropertyLists
  import opened Markup

  /** A `<key>` whose value is still awaited: the key's text and the value's element name, once seen. */
  datatype Pair = Pair(key: Option<string>, element: Option<string>)

  /** An open dictionary and the key it is stored under in the dictionary below it. */
  datatype Frame = Frame(contents: map<string, Value>, key: string)

  /** `root` holds the outermost dictionary while `stack`, innermost first, is empty. */
  datatype State = State(root: map<string, Value>, stack: seq<Frame>, pair: Option<Pair>)

  /** MarkupError is thrown; in the other two cases the source uses a null key or a null dictionary. */
  datatype ParseError = MarkupError | NullKey | NullDictionary

  const INITIAL := State(map[], [], None)

  /** Stores a value in the innermost dictionary and ends the pair. */
  function Put(p: State, key: string, v: Value): State
    requires p.stack != []
  {
    var head := p.stack[0];
    State(p.root, [head.(contents := head.contents[key := v])] + p.stack[1..], None)
  }

  /** Closes the innermost dictionary; the one below sees its contents under its key. */
  function Pop(p: State): State
    requires p.stack != []
  {
    if |p.stack| == 1 then State(p.stack[0].contents, [], p.pair)
    else Put(p.(stack := p.stack[1..]), p.stack[0].key, Dict(p.stack[0].contents)).(pair := p.pair)
  }

  /** The outermost dictionary with every dictionary still open stored where it belongs. */
  function Collapse(p: State): map<string, Value>
    decreases |p.stack|
  {
    if p.stack == [] then p.root else Collapse(Pop(p))
  }

  function OnStart(p: State, name: string): Result<State, ParseError> {
    if p.stack == [] then
      Ok(if name == "dict" then p.(stack := [Frame(p.root, "")]) else p)
    else
      match p.pair
      case None => Ok(if name == "key" then p.(pair := Some(Pair(None, None))) else p)
      case Some(Pair(key, Some(_))) => Ok(p)
      case Some(Pair(key, None)) =>
        if name != "dict" then Ok(p.(pair := Some(Pair(key, Some(name)))))
        else if key.None? then Err(NullKey)
        else Ok(State(p.root, [Frame(map[], key.value)] + p.stack, None))
  }

  function OnEnd(p: State, name: string): State {
    if name == "dict" && p.stack != [] then Pop(p) else p
  }

  function ToValue(element: string, text: string): Option<Value> {
    if element == "string" then Some(Str(text))
    else if element == "integer" then Some(Int(ParseInt(text)))
    else None
  }

  function OnText(p: State, text: string): Result<State, ParseError> {
    match p.pair
    case None => Ok(p)
    case Some(Pair(None, element)) => Ok(p.(pair := Some(Pair(Some(text), element))))
    case Some(Pair(Some(_), None)) => Ok(p)
    case Some(Pair(Some(key), Some(element))) =>
      match ToValue(element, text)
      case None => Ok(p.(pair := None))
      case Some(v) => if p.stack == [] then Err(NullDictionary) else Ok(Put(p, key, v))
  }

  /** The state after the whole of `s`, read inside the open elements `tags` (innermost first). */
  function Run(entities: EntityTable, s: string, tags: seq<string>, p: State): Result<State, ParseError>
    decreases |s|
  {
    match NextToken(entities, s, tags != [])
    case EndOfInput => Ok(p)
    case Malformed => Err(MarkupError)
    case Skipped(rest) => Run(entities, rest, tags, p)
    case Text(text, rest) => Continue(entities, rest, tags, OnText(p, text), |s|)
    case StartTag(name, rest) => Continue(entities, rest, [name] + tags, OnStart(p, name), |s|)
    case EmptyTag(name, rest) => Continue(entities, rest, tags, Closed(OnStart(p, name), name), |s|)
    case EndTag(name, rest) =>
      if tags == [] || tags[0] != name then Err(MarkupError) else Run(entities, rest, tags[1..], OnEnd(p, name))
  }

  function Continue(entities: EntityTable, s: string, tags: seq<string>, p: Result<State, ParseError>, bound: nat)
    : Result<State, ParseError>
    requires |s| < bound
    decreases bound, 0
  {
    match p
    case Err(e) => Err(e)
    case Ok(q) => Run(entities, s, tags, q)
  }

  function Closed(p: Result<State, ParseError>, name: string): Result<State, ParseError> {
    match p
    case Err(e) => Err(e)
    case Ok(q) => Ok(OnEnd(q, name))
  }

  /** The property list read from a document. */
  function FromXml(entities: EntityTable, xml: string): Result<Value, ParseError> {
    match Run(entities, xml, [], INITIAL)
    case Err(e) => Err(e)
    case Ok(p) => Ok(Dict(Collapse(p)))
  }

  /** The parser object GMarkup calls back; `failure` records an error that a callback or the
      markup raised, after which nothing is called. */
  class XmlParser {
    var root: map<string, Value>
    var stack: seq<Frame>
    var currentPair: Option<Pair>
    var failure: Option<ParseError>

    ghost function View(): State
      reads this
    {
      State(root, stack, currentPair)
    }

    constructor ()
      ensures View() == INITIAL && failure == None
    {
      root, stack, currentPair, failure := map[], [], None, None;
    }

    /** Whether the outcome `r` of a callback is what this object shows. */
    ghost predicate Shows(r: Result<State, ParseError>)
      reads this
    {
      match r
      case Ok(p) => failure == None && View() == p
      case Err(e) => failure == Some(e)
    }

    method SetValue(key: string, v: Value)
      requires stack != []
      modifies this`stack
      ensures stack == Put(old(View()), key, v).stack
    {
      stack := [stack[0].(contents := stack[0].contents[key := v])] + stack[1..];
    }

    method OnStartElement(name: string)
      requires failure == None
      modifies this
      ensures Shows(OnStart(old(View()), name))
    {
      if stack == [] {
        if name == "dict" {
          stack := [Frame(root, "")];
        }
        return;
      } else if currentPair == None {
        if name == "key" {
          currentPair := Some(Pair(None, None));
        }
        return;
      }

      if currentPair.value.element == None {
        if name == "dict" {
          if currentPair.value.key == None {
            failure := Some(NullKey);
            return;
          }
          stack := [Frame(map[], currentPair.value.key.value)] + stack;
          currentPair := None;
        } else {
          currentPair := Some(currentPair.value.(element := Some(name)));
        }
      }
    }

    method OnEndElement(name: string)
      requires failure == None
      modifies this
      ensures Shows(Ok(OnEnd(old(View()), name)))
    {
      if name == "dict" && stack != [] {
        var closed := stack[0];
        stack := stack[1..];
        if stack == [] {
          root := closed.contents;
        } else {
          SetValue(closed.key, Dict(closed.contents));
        }
      }
    }

    method OnTextRun(text: string)
      requires failure == None
      modifies this
      ensures Shows(OnText(old(View()), text))
    {
      if currentPair == None {
        return;
      }
      if currentPair.value.key == None {
        currentPair := Some(currentPair.value.(key := Some(text)));
      } else if currentPair.value.element != None {
        var val := ToValue(currentPair.value.element.value, text);
        if val != None {
          if stack == [] {
            failure := Some(NullDictionary);
            return;
          }
          SetValue(currentPair.value.key.value, val.value);
        }
        currentPair := None;
      }
    }

    /** GMarkup's loop over the document. */
    method Parse(entities: EntityTable, xml: string)
      requires failure == None
      modifies this
      ensures Shows(Run(entities, xml, [], old(View())))
    {
      var s, tags := xml, [];
      while failure == None
        invariant failure == None ==> Run(entities, xml, [], old(View())) == Run(entities, s, tags, View())
        invariant failure != None ==> Run(entities, xml, [], old(View())) == Err(failure.value)
        decreases failure == None, |s|
      {
        match NextToken(entities, s, tags != []) {
          case EndOfInput => return;
          case Malformed => failure := Some(MarkupError);
          case Skipped(rest) => s := rest;
          case Text(text, rest) => OnTextRun(text); s := rest;
          case StartTag(name, rest) => OnStartElement(name); s, tags := rest, [name] + tags;
          case EmptyTag(name, rest) =>
            OnStartElement(name);
            if failure == None { OnEndElement(name); }
            s := rest;
          case EndTag(name, rest) =>
            if tags == [] || tags[0] != name {
              failure := Some(MarkupError);
            } else {
              OnEndElement(name);
              s, tags := rest, tags[1..];
            }
        }
      }
    }
  }
}
