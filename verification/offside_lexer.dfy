/** The offside-rule preprocessor: one pass that copies its input and marks the ends of indented blocks. */
module OffsideLexer {

  const OUTDENT := '\\'

  datatype Error = Error(offset: nat, column: int, line: nat)

  /** The pass's counters before some character of the input. */
  datatype Counters = Counters(line: nat, column: int, expected: int, current: int, examine: bool)

  const INITIAL := Counters(0, 0, 0, 0, false)

  /** Java's division, which drops the fraction. */
  function Quotient(a: int, b: int): int
    requires b != 0
  {
    if a >= 0 then a / b else -(-a / b)
  }

  predicate IsOrdinary(c: char) {
    c != ' ' && c != '\t' && c != '\n' && c != ':'
  }

  function Advance(k: Counters, c: char, tabWidth: int): Counters {
    match c
    case ' ' => k.(current := if k.examine then k.current + 1 else k.current, column := k.column + 1)
    case '\t' => k.(current := if k.examine then k.current + tabWidth else k.current, column := k.column + tabWidth)
    case '\n' => k.(current := 0, examine := true, column := 0, line := k.line + 1)
    case ':' => k.(expected := k.current + tabWidth, column := k.column + 1)
    case _ => k.(examine := false, column := k.column + 1)
  }

  /** Whether `c` is the first ordinary character of a line, where the indentation is looked at. */
  predicate Examined(k: Counters, c: char) {
    IsOrdinary(c) && k.examine
  }

  predicate Misplaced(k: Counters, c: char, tabWidth: int) {
    Examined(k, c) && k.current != k.expected && k.current != k.expected - tabWidth
  }

  /** The number of outdents put before `c`. */
  function Outdents(k: Counters, c: char, tabWidth: int): nat {
    if !Examined(k, c) || tabWidth == 0 then 0
    else
      var count := Quotient(k.expected - k.current, tabWidth);
      if count < 0 then 0 else count
  }

  /** The counters after a prefix of the input. */
  function After(input: string, tabWidth: int): Counters {
    if input == "" then INITIAL
    else Advance(After(input[..|input| - 1], tabWidth), input[|input| - 1], tabWidth)
  }

  /** A character of the output, and whether the pass inserted it. */
  datatype Mark = Mark(c: char, inserted: bool)

  function Repeat(n: nat): (ms: seq<Mark>)
    ensures |ms| == n && forall i :: 0 <= i < n ==> ms[i] == Mark(OUTDENT, true)
  {
    seq(n, _ => Mark(OUTDENT, true))
  }

  /** The output for a prefix of the input. */
  function Output(input: string, tabWidth: int): seq<Mark> {
    if input == "" then []
    else
      var before, c := input[..|input| - 1], input[|input| - 1];
      Output(before, tabWidth) + Repeat(Outdents(After(before, tabWidth), c, tabWidth)) + [Mark(c, false)]
  }

  /** The number of outdents that the indentation of the input asks for. */
  function Owed(input: string, tabWidth: int): nat {
    if input == "" then 0
    else
      var before, c := input[..|input| - 1], input[|input| - 1];
      Owed(before, tabWidth) + Outdents(After(before, tabWidth), c, tabWidth)
  }

  lemma {:induction false} OutputLength(input: string, tabWidth: int)
    ensures |Output(input, tabWidth)| == |input| + Owed(input, tabWidth)
  {
    hide Outdents, After;
    if input != "" { OutputLength(input[..|input| - 1], tabWidth); }
  }

  /** The error reported at character `i`, if any. */
  function ErrorsAt(i: nat, k: Counters, c: char, tabWidth: int): seq<Error> {
    if Misplaced(k, c, tabWidth) then [Error(i, k.column, k.line)] else []
  }

  function Errors(input: string, tabWidth: int): seq<Error> {
    if input == "" then []
    else
      var before, c := input[..|input| - 1], input[|input| - 1];
      var k := After(before, tabWidth);
      Errors(before, tabWidth) + ErrorsAt(|before|, k, c, tabWidth)
  }

  /** Whether the indentation of some line is looked at. */
  predicate LooksAtIndent(input: string, tabWidth: int) {
    input != "" && (LooksAtIndent(input[..|input| - 1], tabWidth)
                    || Examined(After(input[..|input| - 1], tabWidth), input[|input| - 1]))
  }

  /** How the pass ends: an exception for a write past the buffer, and one for dividing by a tab width of 0. */
  datatype Outcome = Done | BufferExceeded | DividedByZero

  function Text(ms: seq<Mark>): (s: string)
    ensures |s| == |ms| && forall i :: 0 <= i < |ms| ==> s[i] == ms[i].c
  {
    seq(|ms|, i requires 0 <= i < |ms| => ms[i].c)
  }

  /** Writes `c` after the text of `before`, unless the buffer ends there. */
  method Put(result: array<char>, start: nat, c: char, ghost before: seq<Mark>, ghost inserted: bool)
    returns (ok: bool, pos: nat)
    requires start == |before| <= result.Length && result[..start] == Text(before)
    modifies result
    ensures ok <==> start < result.Length
    ensures ok ==> pos == start + 1 && result[..pos] == Text(before + [Mark(c, inserted)])
  {
    if start >= result.Length {
      return false, start;
    }
    result[start] := c;
    return true, start + 1;
  }

  /** Writes `count` outdents, as long as the buffer lasts. */
  method PutOutdents(result: array<char>, start: nat, count: int, ghost before: seq<Mark>) returns (ok: bool, pos: nat)
    requires start == |before| <= result.Length && result[..start] == Text(before)
    modifies result
    ensures ok <==> start + (if count < 0 then 0 else count) <= result.Length
    ensures ok ==> var after := before + Repeat(if count < 0 then 0 else count);
                   pos == |after| && result[..pos] == Text(after)
  {
    pos := start;
    var j := 0;
    assert before + Repeat(0) == before;
    while j < count
      invariant 0 <= j && (j <= count || j == 0) && pos == start + j <= result.Length
      invariant result[..pos] == Text(before + Repeat(j))
    {
      var put;
      put, pos := Put(result, pos, OUTDENT, before + Repeat(j), true);
      if !put {
        return false, pos;
      }
      assert before + Repeat(j) + [Mark(OUTDENT, true)] == before + Repeat(j + 1);
      j := j + 1;
    }
    return true, pos;
  }

  /** What happens at the first ordinary character of a line: an error if the indentation is neither the
      expected one nor that of the enclosing block, and the outdents due. */
  method ExamineIndent(result: array<char>, start: nat, i: nat, k: Counters, ghost c: char, tabWidth: int,
                       reported: seq<Error>, ghost before: seq<Mark>)
    returns (outcome: Outcome, pos: nat, errors: seq<Error>)
    requires Examined(k, c)
    requires start == |before| <= result.Length && result[..start] == Text(before)
    modifies result
    ensures outcome == DividedByZero <==> tabWidth == 0
    ensures outcome == BufferExceeded <==> start + Outdents(k, c, tabWidth) > result.Length
    ensures outcome == Done ==> var after := before + Repeat(Outdents(k, c, tabWidth));
                                pos == |after| && result[..pos] == Text(after)
    ensures errors == reported + ErrorsAt(i, k, c, tabWidth)
  {
    errors := reported;
    if !(k.current == k.expected || k.current == k.expected - tabWidth) {
      errors := errors + [Error(i, k.column, k.line)];
    }
    if tabWidth == 0 {
      return DividedByZero, start, errors;
    }
    hide Text, Quotient;
    var put;
    put, pos := PutOutdents(result, start, Quotient(k.expected - k.current, tabWidth), before);
    outcome := if put then Done else BufferExceeded;
  }

  /** The pass has read `i` characters without an exception, and its counters, output and errors are these. */
  ghost predicate Reached(input: string, i: nat, tabWidth: int, k: Counters, out: seq<Mark>, errors: seq<Error>) {
    && i <= |input|
    && k == After(input[..i], tabWidth)
    && out == Output(input[..i], tabWidth)
    && errors == Errors(input[..i], tabWidth)
    && (tabWidth == 0 ==> !LooksAtIndent(input[..i], tabWidth))
  }

  /** One turn of the loop: the counters after `c`, and `c` written behind the outdents due before it. */
  method ReadCharacter(result: array<char>, start: nat, i: nat, k: Counters, c: char, tabWidth: int,
                       reported: seq<Error>, ghost before: seq<Mark>)
    returns (outcome: Outcome, pos: nat, next: Counters, errors: seq<Error>)
    requires start == |before| <= result.Length && result[..start] == Text(before)
    modifies result
    ensures outcome == DividedByZero <==> tabWidth == 0 && Examined(k, c)
    ensures outcome == BufferExceeded ==> start + Outdents(k, c, tabWidth) + 1 > result.Length
    ensures outcome == Done ==>
              var after := before + Repeat(Outdents(k, c, tabWidth)) + [Mark(c, false)];
              && pos == |after| <= result.Length && result[..pos] == Text(after)
              && next == Advance(k, c, tabWidth) && errors == reported + ErrorsAt(i, k, c, tabWidth)
  {
    hide Text, Outdents, ErrorsAt;
    var Counters(lineNumber, colNumber, expectedIndent, currentIndent, examineIndent) := k;
    next, pos, errors := k, start, reported;
    UnexaminedCharacter(before, i, k, c, tabWidth, reported);
    if c == ' ' {
      if examineIndent { currentIndent := currentIndent + 1; }
      colNumber := colNumber + 1;
    } else if c == '\t' {
      if examineIndent { currentIndent := currentIndent + tabWidth; }
      colNumber := colNumber + tabWidth;
    } else if c == '\n' {
      currentIndent := 0;
      examineIndent := true;
      colNumber := 0;
      lineNumber := lineNumber + 1;
    } else if c == ':' {
      expectedIndent := currentIndent + tabWidth;
      colNumber := colNumber + 1;
    } else {
      if examineIndent {
        outcome, pos, errors := ExamineIndent(result, start, i, k, c, tabWidth, reported, before);
        if outcome != Done {
          return;
        }
      }
      examineIndent := false;
      colNumber := colNumber + 1;
    }
    next := Counters(lineNumber, colNumber, expectedIndent, currentIndent, examineIndent);
    var put;
    put, pos := Put(result, pos, c, before + Repeat(Outdents(k, c, tabWidth)), false);
    outcome := if put then Done else BufferExceeded;
  }

  lemma UnexaminedCharacter(before: seq<Mark>, i: nat, k: Counters, c: char, tabWidth: int, reported: seq<Error>)
    ensures !Examined(k, c) ==> before + Repeat(Outdents(k, c, tabWidth)) == before
    ensures !Examined(k, c) ==> reported + ErrorsAt(i, k, c, tabWidth) == reported
  {
    assert before + Repeat(0) == before;
  }

  /** `preprocess`, with the errors it reports. The string returned is the whole buffer, so the output is
      followed by what the buffer was filled with. */
  method Preprocess(input: string, tabWidth: int) returns (outcome: Outcome, result: array<char>, errors: seq<Error>)
    ensures fresh(result) && result.Length == 2 * |input|
    ensures outcome == DividedByZero <==> tabWidth == 0 && LooksAtIndent(input, tabWidth)
    ensures outcome == BufferExceeded <==> Owed(input, tabWidth) > |input|
    ensures outcome == Done ==>
              && |Output(input, tabWidth)| <= result.Length
              && result[..|Output(input, tabWidth)|] == Text(Output(input, tabWidth))
    ensures outcome == Done ==> errors == Errors(input, tabWidth)
  {
    OutputLength(input, tabWidth);
    result := new char[2 * |input|](_ => '\0');
    errors := [];
    var n := |input|;
    var counters, pos := INITIAL, 0;
    var i := 0;
    ghost var out: seq<Mark> := [];
    while i < n
      invariant i <= n && pos == |out| <= result.Length && result[..pos] == Text(out)
      invariant Reached(input, i, tabWidth, counters, out, errors)
    {
      hide Output, After, Errors, LooksAtIndent, Reached, Outdents, Text, Owed, ErrorsAt, Advance, Examined;
      var c := input[i];
      ghost var count := Outdents(counters, c, tabWidth);
      StepReached(input, i, tabWidth, counters, out, errors);
      outcome, pos, counters, errors := ReadCharacter(result, pos, i, counters, c, tabWidth, errors, out);
      if outcome != Done {
        return;
      }
      out := out + Repeat(count) + [Mark(c, false)];
      i := i + 1;
    }
    assert input[..n] == input;
    outcome := Done;
  }

  lemma StepReached(input: string, i: nat, tabWidth: int, k: Counters, out: seq<Mark>, errors: seq<Error>)
    requires i < |input| && Reached(input, i, tabWidth, k, out, errors)
    ensures var count := Outdents(k, input[i], tabWidth);
            && |out| + count + 1 <= |Output(input, tabWidth)|
            && (tabWidth == 0 && Examined(k, input[i]) ==> LooksAtIndent(input, tabWidth))
            && (tabWidth == 0 ==> |Output(input, tabWidth)| == |input|)
            && (tabWidth != 0 || !Examined(k, input[i]) ==>
                  Reached(input, i + 1, tabWidth, Advance(k, input[i], tabWidth),
                          out + Repeat(count) + [Mark(input[i], false)], errors + ErrorsAt(i, k, input[i], tabWidth)))
  {
    PrefixStep(input, i, tabWidth);
    OutputGrows(input, i + 1, tabWidth);
    NoOutdentsOfWidthZero(input);
  }

  lemma {:induction false} NoOutdentsOfWidthZero(input: string)
    ensures |Output(input, 0)| == |input|
  {
    if input != "" { NoOutdentsOfWidthZero(input[..|input| - 1]); }
  }

  lemma PrefixStep(input: string, i: nat, tabWidth: int)
    requires i < |input|
    ensures var k := After(input[..i], tabWidth);
            && After(input[..i + 1], tabWidth) == Advance(k, input[i], tabWidth)
            && Output(input[..i + 1], tabWidth)
               == Output(input[..i], tabWidth) + Repeat(Outdents(k, input[i], tabWidth)) + [Mark(input[i], false)]
            && Errors(input[..i + 1], tabWidth)
               == Errors(input[..i], tabWidth) + ErrorsAt(i, k, input[i], tabWidth)
            && (LooksAtIndent(input[..i + 1], tabWidth)
                <==> LooksAtIndent(input[..i], tabWidth) || Examined(k, input[i]))
  {
    assert input[..i + 1][..i] == input[..i];
  }

  lemma {:induction false} OutputGrows(input: string, i: nat, tabWidth: int)
    requires i <= |input|
    ensures |Output(input[..i], tabWidth)| <= |Output(input, tabWidth)|
    ensures LooksAtIndent(input[..i], tabWidth) ==> LooksAtIndent(input, tabWidth)
    decreases |input| - i
  {
    if i < |input| {
      PrefixStep(input, i, tabWidth);
      OutputGrows(input, i + 1, tabWidth);
    } else {
      assert input[..i] == input;
    }
  }

  // ---- What the output says.

  /** The output without what was inserted. */
  function Erased(ms: seq<Mark>): string {
    if ms == [] then "" else Erased(ms[..|ms| - 1]) + if ms[|ms| - 1].inserted then "" else [ms[|ms| - 1].c]
  }

  lemma {:induction false} ErasedRepeat(ms: seq<Mark>, n: nat)
    ensures Erased(ms + Repeat(n)) == Erased(ms)
  {
    if n == 0 {
      assert ms + Repeat(0) == ms;
    } else {
      ErasedRepeat(ms, n - 1);
      assert (ms + Repeat(n))[..|ms| + n - 1] == ms + Repeat(n - 1);
    }
  }

  lemma LastMark(ms: seq<Mark>, m: Mark)
    ensures Erased(ms + [m]) == Erased(ms) + if m.inserted then "" else [m.c]
  {
    assert (ms + [m])[..|ms|] == ms;
  }

  /** Whatever the indentation, the output without what was put in is the input. */
  lemma {:induction false} OutputIsInput(input: string, tabWidth: int)
    ensures Erased(Output(input, tabWidth)) == input
  {
    if input != "" {
      var before, c := input[..|input| - 1], input[|input| - 1];
      var count := Outdents(After(before, tabWidth), c, tabWidth);
      OutputIsInput(before, tabWidth);
      hide After, Outdents, Erased;
      ErasedRepeat(Output(before, tabWidth), count);
      LastMark(Output(before, tabWidth) + Repeat(count), Mark(c, false));
      assert input == before + [c];
    }
  }

  lemma {:induction false} OnlyOutdentsInserted(input: string, tabWidth: int, i: nat)
    requires i < |Output(input, tabWidth)| && Output(input, tabWidth)[i].inserted
    ensures Output(input, tabWidth)[i].c == '\\'
  {
    var before := input[..|input| - 1];
    if i < |Output(before, tabWidth)| { OnlyOutdentsInserted(before, tabWidth, i); }
  }

  // ---- When the buffer of twice the input suffices.

  function Newlines(s: string): nat {
    if s == "" then 0 else Newlines(s[..|s| - 1]) + if s[|s| - 1] == '\n' then 1 else 0
  }

  lemma {:induction false} NewlinesBound(s: string)
    ensures Newlines(s) <= |s|
  {
    if s != "" { NewlinesBound(s[..|s| - 1]); }
  }

  /** No line starts two tabs or more short of the indentation expected there. */
  predicate Shallow(input: string, tabWidth: int) {
    input != "" ==>
      var before, c := input[..|input| - 1], input[|input| - 1];
      var k := After(before, tabWidth);
      Shallow(before, tabWidth) && (Examined(k, c) ==> k.expected - k.current < 2 * tabWidth)
  }

  lemma QuotientBelowTwo(depth: int, tabWidth: int)
    requires tabWidth > 0 && depth < 2 * tabWidth
    ensures depth >= tabWidth ==> Quotient(depth, tabWidth) == 1
    ensures depth < tabWidth ==> Quotient(depth, tabWidth) <= 0
  {
    if depth >= tabWidth {
      DivideOnce(depth, tabWidth, 1);
    } else if depth >= 0 {
      DivideOnce(depth, tabWidth, 0);
    } else {
      var q := -depth / tabWidth;
      assert q >= 0;
    }
  }

  lemma DivideOnce(a: nat, b: nat, q: nat)
    requires q * b <= a < q * b + b
    ensures a / b == q
  {
    var p, rest := a / b, a % b;
    assert a == p * b + rest && 0 <= rest < b;
    assert p < q ==> (p + 1) * b <= q * b;
    assert p > q ==> (q + 1) * b <= p * b;
  }

  /** A line that is less than two tabs short gets one outdent if it is a tab short, and none otherwise. */
  lemma ShallowOutdents(k: Counters, c: char, tabWidth: int)
    requires tabWidth > 0 && Examined(k, c) && k.expected - k.current < 2 * tabWidth
    ensures Outdents(k, c, tabWidth) == if k.expected - k.current >= tabWidth then 1 else 0
  {
    QuotientBelowTwo(k.expected - k.current, tabWidth);
    hide Quotient;
  }

  /** A line deeper than expected is an error, but gets no outdent. */
  lemma OverIndented(k: Counters, c: char, tabWidth: int)
    requires tabWidth > 0 && Examined(k, c) && k.current > k.expected
    ensures Misplaced(k, c, tabWidth) && Outdents(k, c, tabWidth) == 0
  {
    ShallowOutdents(k, c, tabWidth);
  }

  /** There is at most one outdent a line, errors or not; a line whose indentation is yet to be looked at has
      none so far. */
  lemma {:induction false} OneOutdentPerLine(input: string, tabWidth: int)
    requires tabWidth > 0 && Shallow(input, tabWidth)
    ensures Owed(input, tabWidth) + (if After(input, tabWidth).examine then 1 else 0) <= Newlines(input)
  {
    if input != "" {
      var before, c := input[..|input| - 1], input[|input| - 1];
      var k := After(before, tabWidth);
      OneOutdentPerLine(before, tabWidth);
      if Examined(k, c) { ShallowOutdents(k, c, tabWidth); }
      hide Quotient;
    }
  }

  lemma {:induction false} WellIndentedIsShallow(input: string, tabWidth: int)
    requires tabWidth > 0 && Errors(input, tabWidth) == []
    ensures Shallow(input, tabWidth)
  {
    if input != "" { WellIndentedIsShallow(input[..|input| - 1], tabWidth); }
  }

  /** The buffer suffices exactly if the indentation asks for no more outdents than there are characters. It
      does if no line starts two tabs or more short of what is expected, and so if no error is reported. */
  lemma {:induction false} FitsIff(input: string, tabWidth: int)
    ensures |Output(input, tabWidth)| <= 2 * |input| <==> Owed(input, tabWidth) <= |input|
    ensures tabWidth > 0 && Shallow(input, tabWidth) ==> |Output(input, tabWidth)| <= 2 * |input|
    ensures tabWidth > 0 && Errors(input, tabWidth) == [] ==> Shallow(input, tabWidth)
  {
    OutputLength(input, tabWidth);
    NewlinesBound(input);
    if tabWidth > 0 && Shallow(input, tabWidth) { OneOutdentPerLine(input, tabWidth); }
    if tabWidth > 0 && Errors(input, tabWidth) == [] { WellIndentedIsShallow(input, tabWidth); }
  }

  // ---- An input that exceeds the buffer.

  /** After `input` the counters are `k` and `owed` outdents have been put in. */
  ghost predicate Reaches(input: string, tabWidth: int, k: Counters, owed: nat) {
    After(input, tabWidth) == k && Owed(input, tabWidth) == owed
  }

  lemma OneMore(input: string, c: char, tabWidth: int, k: Counters, owed: nat)
    requires Reaches(input, tabWidth, k, owed)
    ensures Reaches(input + [c], tabWidth, Advance(k, c, tabWidth), owed + Outdents(k, c, tabWidth))
  {
    var s := input + [c];
    assert s[..|s| - 1] == input;
    hide Advance, Outdents;
  }

  /** A line at the margin, where five tabs are expected. */
  lemma ShortLine(input: string, k: Counters, owed: nat)
    requires Reaches(input, 1, k, owed) && k.expected == 5
    ensures exists m: Counters :: Reaches(input + "\nx", 1, m, owed + 5) && m.expected == 5
  {
    var atLine := Advance(k, '\n', 1);
    OneMore(input, '\n', 1, k, owed);
    OneMore(input + ['\n'], 'x', 1, atLine, owed);
    assert input + ['\n'] + ['x'] == input + "\nx";
    hide Reaches;
    assert Outdents(k, '\n', 1) == 0 && Outdents(atLine, 'x', 1) == 5;
    assert Advance(atLine, 'x', 1).expected == 5;
  }

  /** A block opened by a line four tabs deep. */
  lemma DeepBlock()
    ensures Reaches("" + "\n" + "\t" + "\t" + "\t" + "\t" + ":", 1, Counters(1, 5, 5, 4, true), 0)
  {
    assert Reaches("", 1, INITIAL, 0);
    OneMore("", '\n', 1, INITIAL, 0);
    FourTabs("" + "\n", Counters(1, 0, 0, 0, true));
    OneMore("" + "\n" + "\t" + "\t" + "\t" + "\t", ':', 1, Counters(1, 4, 0, 4, true), 0);
    hide Reaches;
  }

  lemma FourTabs(input: string, k: Counters)
    requires Reaches(input, 1, k, 0) && k.examine
    ensures Reaches(input + "\t" + "\t" + "\t" + "\t", 1, k.(column := k.column + 4, current := k.current + 4), 0)
  {
    hide Reaches;
    Tab(input, k);
    Tab(input + "\t", k.(column := k.column + 1, current := k.current + 1));
    Tab(input + "\t" + "\t", k.(column := k.column + 2, current := k.current + 2));
    Tab(input + "\t" + "\t" + "\t", k.(column := k.column + 3, current := k.current + 3));
  }

  lemma Tab(input: string, k: Counters)
    requires Reaches(input, 1, k, 0) && k.examine
    ensures Reaches(input + "\t", 1, k.(column := k.column + 1, current := k.current + 1), 0)
  {
    OneMore(input, '\t', 1, k, 0);
  }

  /** A block opened four tabs deep keeps asking for five outdents a line, so after three lines at the margin
      twelve characters of input have become twenty-seven of output. */
  lemma BadIndentationOverflows()
    ensures var input := "" + "\n" + "\t" + "\t" + "\t" + "\t" + ":" + "\nx" + "\nx" + "\nx";
            |input| == 12 && |Output(input, 1)| == 27
  {
    hide Reaches, Output;
    DeepBlock();
    var a := "" + "\n" + "\t" + "\t" + "\t" + "\t" + ":";
    ShortLine(a, Counters(1, 5, 5, 4, true), 0);
    var k :| Reaches(a + "\nx", 1, k, 5) && k.expected == 5;
    ShortLine(a + "\nx", k, 5);
    var m :| Reaches(a + "\nx" + "\nx", 1, m, 10) && m.expected == 5;
    ShortLine(a + "\nx" + "\nx", m, 10);
    var n :| Reaches(a + "\nx" + "\nx" + "\nx", 1, n, 15) && n.expected == 5;
    OwedThen(a + "\nx" + "\nx" + "\nx", 1, n, 15);
  }

  lemma OwedThen(input: string, tabWidth: int, k: Counters, owed: nat)
    requires Reaches(input, tabWidth, k, owed)
    ensures |Output(input, tabWidth)| == |input| + owed
  {
    OutputLength(input, tabWidth);
  }
}
