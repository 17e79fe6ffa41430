/** The resource compiler's C initializers: what a C compiler reads in the emitted text is the file. */
module ResourceArrays {
  import opened Outcomes
  import opened Sequences

  const NIBBLES: string := "0123456789abcdef"

  function HexByte(b: byte): (s: string)
    ensures |s| == 4
  {
    ['0', 'x', NIBBLES[b / 16], NIBBLES[b % 16]]
  }

  // ---- How C reads an initializer list of hexadecimal constants.

  /** Where the reader is: before a constant, after its `0`, after `0x`, after one digit, after two (the
      constant is complete), or past an error. `values` holds the constants completed so far. */
  datatype Reader =
    | Before(values: seq<byte>)
    | Zero(values: seq<byte>)
    | Prefix(values: seq<byte>)
    | Digit(values: seq<byte>, high: nat)
    | After(values: seq<byte>)
    | Wrong

  function HexValue(c: char): (v: Option<nat>)
    ensures v.Some? ==> v.value < 16
  {
    if '0' <= c <= '9' then Some((c - '0') as nat)
    else if 'a' <= c <= 'f' then Some(10 + (c - 'a') as nat)
    else None
  }

  function Read(r: Reader, c: char): Reader {
    match r
    case Before(vs) => if c == ' ' || c == '\n' then r else if c == '0' then Zero(vs) else Wrong
    case Zero(vs) => if c == 'x' then Prefix(vs) else Wrong
    case Prefix(vs) => if HexValue(c).Some? then Digit(vs, HexValue(c).value) else Wrong
    case Digit(vs, high) =>
      if HexValue(c).Some? && high < 16 then After(vs + [16 * high + HexValue(c).value]) else Wrong
    case After(vs) => if c == ' ' || c == '\n' then r else if c == ',' then Before(vs) else Wrong
    case Wrong => Wrong
  }

  function ReadAll(r: Reader, s: string): Reader
    decreases |s|
  {
    if s == "" then r else ReadAll(Read(r, s[0]), s[1..])
  }

  /** The values of the list, if it is well-formed and ends with a constant. */
  function ParseInitializer(s: string): Option<seq<byte>> {
    match ReadAll(Before([]), s)
    case After(vs) => Some(vs)
    case _ => None
  }

  lemma {:induction false} ReadConcat(r: Reader, a: string, b: string)
    ensures ReadAll(r, a + b) == ReadAll(ReadAll(r, a), b)
    decreases |a|
  {
    if a == "" {
      assert a + b == b;
    } else {
      assert (a + b)[0] == a[0] && (a + b)[1..] == a[1..] + b;
      ReadConcat(Read(r, a[0]), a[1..], b);
    }
  }

  lemma NibbleRoundTrip(n: nat)
    requires n < 16
    ensures HexValue(NIBBLES[n]) == Some(n)
  {
  }

  lemma ReadHexByte(vs: seq<byte>, b: byte)
    ensures ReadAll(Before(vs), HexByte(b)) == After(vs + [b])
  {
    NibbleRoundTrip(b / 16);
    NibbleRoundTrip(b % 16);
    var s := HexByte(b);
    assert s == [s[0]] + ([s[1]] + ([s[2]] + [s[3]]));
    ReadOne(Before(vs), s);
    ReadOne(Zero(vs), s[1..]);
    ReadOne(Prefix(vs), s[2..]);
    ReadOne(Digit(vs, b / 16), s[3..]);
    assert s[1..][1..] == s[2..] && s[2..][1..] == s[3..] && s[3..][1..] == "";
  }

  lemma ReadOne(r: Reader, s: string)
    requires s != ""
    ensures ReadAll(r, s) == ReadAll(Read(r, s[0]), s[1..])
  {
  }

  /** One element with its comma and the white space around it. */
  lemma ReadElement(vs: seq<byte>, lead: string, b: byte)
    requires forall c <- lead :: c == ' '
    ensures ReadAll(Before(vs), lead + HexByte(b) + ",") == Before(vs + [b])
  {
    ReadSpaces(vs, lead);
    ReadConcat(Before(vs), lead, HexByte(b));
    ReadHexByte(vs, b);
    ReadConcat(Before(vs), lead + HexByte(b), ",");
    ReadOne(After(vs + [b]), ",");
  }

  lemma {:induction false} ReadSpaces(vs: seq<byte>, lead: string)
    requires forall c <- lead :: c == ' '
    ensures ReadAll(Before(vs), lead) == Before(vs)
  {
    if lead != "" {
      assert lead[0] in lead && forall c <- lead[1..] :: c in lead;
      ReadSpaces(vs, lead[1..]);
    }
  }

  lemma ReadGap(vs: seq<byte>, s: string, c: char)
    requires ReadAll(Before([]), s) == Before(vs) && (c == ' ' || c == '\n')
    ensures ReadAll(Before([]), s + [c]) == Before(vs)
  {
    ReadConcat(Before([]), s, [c]);
    ReadOne(Before(vs), [c]);
  }

  /** The text of one more element, without and with the white space after it. */
  lemma ReadMore(before: string, builder: string, done: seq<byte>, chunk: seq<byte>, i: nat, lead: string, gap: char)
    requires i < |chunk| && ReadAll(Before([]), before + builder) == Before(done + chunk[..i])
    requires (forall c <- lead :: c == ' ') && (gap == ' ' || gap == '\n')
    ensures var kept := builder + lead + HexByte(chunk[i]) + ",";
            && ReadAll(Before([]), before + kept) == Before(done + chunk[..i + 1])
            && ReadAll(Before([]), before + (kept + [gap])) == Before(done + chunk[..i + 1])
  {
    hide ReadAll, HexByte;
    var text, vs, element := before + builder, done + chunk[..i], lead + HexByte(chunk[i]) + ",";
    ReadElement(vs, lead, chunk[i]);
    ReadConcat(Before([]), text, element);
    ReadGap(vs + [chunk[i]], text + element, gap);
    assert vs + [chunk[i]] == done + chunk[..i + 1];
    assert text + element == before + (builder + lead + HexByte(chunk[i]) + ",");
    assert text + element + [gap] == before + (builder + lead + HexByte(chunk[i]) + "," + [gap]);
  }

  /** One chunk's elements, appended to text that ends before an element. The text still does, and its last
      character is white space that may be dropped. */
  method AppendChunk(chunk: seq<byte>, offset: nat, ghost before: string, ghost done: seq<byte>)
    returns (builder: string, lineOffset: nat)
    requires chunk != [] && offset < 12 && ReadAll(Before([]), before) == Before(done)
    ensures builder != "" && lineOffset < 12
    ensures builder[|builder| - 1] == ' ' || builder[|builder| - 1] == '\n'
    ensures ReadAll(Before([]), before + builder[..|builder| - 1]) == Before(done + chunk)
  {
    builder, lineOffset := "", offset;
    var i := 0;
    ghost var kept := "";
    ghost var gap := ' ';
    assert before + "" == before && done + chunk[..0] == done;
    hide ReadAll, HexByte;
    while i != |chunk|
      invariant i <= |chunk| && lineOffset < 12
      invariant ReadAll(Before([]), before + builder) == Before(done + chunk[..i])
      invariant i > 0 ==> builder == kept + [gap] && (gap == ' ' || gap == '\n')
      invariant i > 0 ==> ReadAll(Before([]), before + kept) == Before(done + chunk[..i])
    {
      var lead := if lineOffset == 0 then "  " else "";
      gap := if (lineOffset + 1) % 12 != 0 then ' ' else '\n';
      ReadMore(before, builder, done, chunk, i, lead, gap);
      builder := builder + lead;
      builder := builder + HexByte(chunk[i]);
      builder := builder + ",";
      kept := builder;
      lineOffset := lineOffset + 1;
      if lineOffset % 12 != 0 {
        builder := builder + " ";
      } else {
        lineOffset := 0;
        builder := builder + "\n";
      }
      i := i + 1;
    }
    assert chunk[..i] == chunk && builder[..|builder| - 1] == kept;
  }

  /** `serialize_to_c_array`: however the file is cut into reads, the text is an initializer for its bytes and
      one terminating zero. */
  method SerializeToCArray(chunks: seq<seq<byte>>) returns (output: string)
    requires forall i :: 0 <= i < |chunks| ==> chunks[i] != []
    ensures ParseInitializer(output) == Some(Flatten(chunks) + [0])
  {
    output := "";
    var lineOffset := 0;
    for n := 0 to |chunks|
      invariant lineOffset < 12
      invariant ReadAll(Before([]), output) == Before(Flatten(chunks[..n]))
    {
      var builder: string;
      builder, lineOffset := AppendChunk(chunks[n], lineOffset, output, Flatten(chunks[..n]));
      FlattenOneMore(chunks, n);
      output := output + builder[..|builder| - 1];
    }
    assert chunks[..|chunks|] == chunks;
    ReadConcat(Before([]), output, HexByte(0));
    ReadHexByte(Flatten(chunks), 0);
    output := output + HexByte(0);
  }
}
