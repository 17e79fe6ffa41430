/** Property lists: string-keyed dictionaries, what reading a written one gives, and the writer's key order. */
module PropertyLists {
  import opened Outcomes
  import opened StringOrder

  datatype Value =
    | Str(s: string)
    | Int(i: int32)
    | UInt(u: uint32)
    | Dict(entries: map<string, Value>)

  /** What reading gives for a written value: the XML does not say which integers were unsigned, so every
      number is read as an `int`, which keeps its low 32 bits. */
  function AsRead(v: Value): Value {
    match v
    case UInt(u) => Int(ToInt32(u))
    case Dict(e) => Dict(AsReadAll(v))
    case _ => v
  }

  function AsReadAll(d: Value): map<string, Value>
    requires d.Dict?
    decreases d, 0
  {
    map k | k in d.entries :: AsRead(d.entries[k])
  }

  /** The same value, with every unsigned number that an `int` can hold as an `int`. */
  function ReadBack(v: Value): Value {
    match v
    case UInt(u) => if u < 0x8000_0000 then Int(u) else v
    case Dict(e) => Dict(ReadBackAll(v))
    case _ => v
  }

  function ReadBackAll(d: Value): map<string, Value>
    requires d.Dict?
    decreases d, 0
  {
    map k | k in d.entries :: ReadBack(d.entries[k])
  }

  /** Characters that XML does not carry literally. */
  predicate IsMarkup(c: char) {
    c == '<' || c == '&' || c == '\r'
  }

  predicate PlainText(s: string) {
    s != "" && forall c <- s :: !IsMarkup(c)
  }

  /** Conditions a caller can check before writing: non-empty markup-free strings and keys at every level ... */
  predicate Plain(v: Value) {
    match v
    case Str(s) => PlainText(s)
    case Dict(e) => forall k <- e :: PlainText(k) && Plain(e[k])
    case _ => true
  }

  /** ... and no unsigned value from 2^31 on. */
  predicate Faithful(v: Value) {
    match v
    case Str(s) => PlainText(s)
    case Int(_) => true
    case UInt(u) => u < 0x8000_0000
    case Dict(e) => forall k <- e :: PlainText(k) && Faithful(e[k])
  }

  // ---- Order in which the writer visits keys.

  predicate IsFirst(k: string, ks: set<string>) {
    k in ks && forall j <- ks :: j != k ==> Before(k, j)
  }

  lemma {:induction false} FirstExists(ks: set<string>)
    requires ks != {}
    ensures exists k :: IsFirst(k, ks)
  {
    var x :| x in ks;
    if ks == {x} {
      assert IsFirst(x, ks);
    } else {
      FirstExists(ks - {x});
      var y :| IsFirst(y, ks - {x});
      BeforeTotal(x, y);
      forall j <- ks | j != x && Before(x, y) ensures Before(x, j) {
        if j != y { BeforeTransitive(x, y, j); }
      }
      assert IsFirst(if Before(x, y) then x else y, ks);
    }
  }

  lemma FirstUnique(ks: set<string>)
    ensures forall a, b :: IsFirst(a, ks) && IsFirst(b, ks) ==> a == b
  {
    forall a, b | IsFirst(a, ks) && IsFirst(b, ks) ensures a == b {
      BeforeTotal(a, b);
    }
  }

  /** The keys in the writer's order. */
  function SortedKeys(ks: set<string>): (sorted: seq<string>)
    ensures forall k :: k in sorted <==> k in ks
    ensures forall i, j :: 0 <= i < j < |sorted| ==> Before(sorted[i], sorted[j]) && sorted[i] != sorted[j]
  {
    if ks == {} then []
    else
      FirstExists(ks);
      FirstUnique(ks);
      var first :| IsFirst(first, ks);
      [first] + SortedKeys(ks - {first})
  }
}
