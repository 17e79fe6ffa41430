/** What the pass of the lexer does to a line, said of the text: its leading white space, and the line of the last
    colon before it. */
module OffsideText {
  import opened Outcomes
  import opened OffsideLexer

  function Count(s: string, c: char): (n: nat)
    ensures n <= |s|
  {
    if s == "" then 0 else Count(s[..|s| - 1], c) + if s[|s| - 1] == c then 1 else 0
  }

  /** The position behind the last line break, or 0. */
  function LineStart(s: string): (i: nat)
    ensures i <= |s|
  {
    if s == "" then 0 else if s[|s| - 1] == '\n' then |s| else LineStart(s[..|s| - 1])
  }

  lemma {:induction false} LineStartIs(s: string)
    ensures LineStart(s) == 0 || s[LineStart(s) - 1] == '\n'
    ensures '\n' !in s[LineStart(s)..]
  {
    if s != "" && s[|s| - 1] != '\n' { LineStartIs(s[..|s| - 1]); }
  }

  /** The end of what a line begins with before its first ordinary character. */
  function IndentEnd(s: string, from: nat): (j: nat)
    requires from <= |s|
    ensures from <= j <= |s|
    decreases |s| - from
  {
    if from == |s| || IsOrdinary(s[from]) then from else IndentEnd(s, from + 1)
  }

  lemma {:induction false} IndentEndIs(s: string, from: nat)
    requires from <= |s|
    ensures IndentEnd(s, from) < |s| ==> s[IndentEnd(s, from)] !in " \t:\n"
    ensures forall k :: from <= k < IndentEnd(s, from) ==> s[k] in " \t:\n"
    decreases |s| - from
  {
    if from < |s| { IndentEndIs(s, from + 1); }
  }

  /** The columns that the white space in `s` takes. */
  function Width(s: string, tabWidth: int): int {
    Count(s, ' ') + tabWidth * Count(s, '\t')
  }

  /** The indentation of the last line of `s`; that of the first line does not count. */
  function Indent(s: string, tabWidth: int): int {
    var i := LineStart(s);
    if i == 0 then 0 else Width(s[i..IndentEnd(s, i)], tabWidth)
  }

  function LastColon(s: string): (p: Option<nat>)
    ensures p.None? ==> ':' !in s
    ensures p.Some? ==> p.value < |s| && s[p.value] == ':' && ':' !in s[p.value + 1..]
  {
    if s == "" then None else if s[|s| - 1] == ':' then Some(|s| - 1) else LastColon(s[..|s| - 1])
  }

  /** The indentation of a block: one tab more than the line, up to its colon, that opened it. */
  function Expected(s: string, tabWidth: int): int {
    match LastColon(s)
    case None => 0
    case Some(p) => Indent(s[..p], tabWidth) + tabWidth
  }

  function Column(s: string, tabWidth: int): int {
    var line := s[LineStart(s)..];
    |line| - Count(line, '\t') + tabWidth * Count(line, '\t')
  }

  /** The next ordinary character is the first of its line. */
  predicate AtIndent(s: string) {
    LineStart(s) > 0 && IndentEnd(s, LineStart(s)) == |s|
  }

  lemma CountMore(s: string, c: char, d: char)
    ensures Count(s + [c], d) == Count(s, d) + if c == d then 1 else 0
  {
    assert (s + [c])[..|s|] == s;
  }

  lemma {:induction false} IndentEndMore(s: string, c: char, from: nat)
    requires from <= |s|
    ensures IndentEnd(s + [c], from)
         == if IndentEnd(s, from) == |s| && !IsOrdinary(c) then |s| + 1 else IndentEnd(s, from)
    decreases |s| - from
  {
    if from < |s| {
      IndentEndMore(s, c, from + 1);
    } else {
      assert (s + [c])[|s|] == c;
    }
  }

  lemma LineStartMore(s: string, c: char)
    ensures LineStart(s + [c]) == if c == '\n' then |s| + 1 else LineStart(s)
  {
    assert (s + [c])[..|s|] == s;
  }

  lemma ExpectedMore(s: string, c: char, tabWidth: int)
    ensures Expected(s + [c], tabWidth)
         == if c == ':' then Indent(s, tabWidth) + tabWidth else Expected(s, tabWidth)
  {
    assert (s + [c])[..|s|] == s;
    if c != ':' && LastColon(s).Some? {
      assert (s + [c])[..LastColon(s).value] == s[..LastColon(s).value];
    }
    hide Indent;
  }

  lemma WidthMore(s: string, c: char, tabWidth: int)
    ensures Width(s + [c], tabWidth) == Width(s, tabWidth) + if c == ' ' then 1 else if c == '\t' then tabWidth else 0
  {
    CountMore(s, c, ' ');
    CountMore(s, c, '\t');
    hide Count;
    Times(tabWidth, Count(s, '\t'));
  }

  /** One character more in the indentation of a line. */
  lemma IndentMore(s: string, c: char, tabWidth: int)
    ensures Indent(s + [c], tabWidth)
         == if c == '\n' then 0
            else if AtIndent(s) && c == ' ' then Indent(s, tabWidth) + 1
            else if AtIndent(s) && c == '\t' then Indent(s, tabWidth) + tabWidth
            else Indent(s, tabWidth)
  {
    LineStartMore(s, c);
    if c == '\n' {
      NothingIndented(s + [c], tabWidth);
    } else {
      SameLine(s, c, tabWidth);
    }
    hide Indent, LineStart, AtIndent;
  }

  lemma SameLine(s: string, c: char, tabWidth: int)
    requires LineStart(s + [c]) == LineStart(s)
    ensures Indent(s + [c], tabWidth)
         == if AtIndent(s) && c == ' ' then Indent(s, tabWidth) + 1
            else if AtIndent(s) && c == '\t' then Indent(s, tabWidth) + tabWidth
            else Indent(s, tabWidth)
  {
    var i := LineStart(s);
    var j := IndentEnd(s, i);
    IndentEndMore(s, c, i);
    WidthMore(s[i..j], c, tabWidth);
    Slices(s, c, i, j);
    hide LineStart, IndentEnd, Width;
  }

  lemma Slices(s: string, c: char, i: nat, j: nat)
    requires i <= j <= |s|
    ensures (s + [c])[i..j] == s[i..j] && (j == |s| ==> (s + [c])[i..j + 1] == s[i..j] + [c])
  {
  }

  lemma NothingIndented(s: string, tabWidth: int)
    requires LineStart(s) == |s|
    ensures Indent(s, tabWidth) == 0
  {
  }

  lemma Times(a: int, b: int)
    ensures a * (b + 1) == a * b + a
  {
  }

  lemma ColumnMore(s: string, c: char, tabWidth: int)
    ensures Column(s + [c], tabWidth)
         == if c == '\n' then 0 else Column(s, tabWidth) + if c == '\t' then tabWidth else 1
  {
    LineStartMore(s, c);
    var i := LineStart(s);
    if c != '\n' {
      assert (s + [c])[i..] == s[i..] + [c];
      CountMore(s[i..], c, '\t');
      Times(tabWidth, Count(s[i..], '\t'));
    }
    hide LineStart, Count;
  }

  lemma AtIndentMore(s: string, c: char)
    ensures AtIndent(s + [c]) <==> c == '\n' || (AtIndent(s) && !IsOrdinary(c))
  {
    LineStartMore(s, c);
    IndentEndMore(s, c, LineStart(s));
    hide LineStart;
  }

  /** The counters of the pass after a prefix of the input are what they are called, of the text. */
  lemma {:induction false} CountersOf(s: string, tabWidth: int)
    ensures After(s, tabWidth)
         == Counters(Count(s, '\n'), Column(s, tabWidth), Expected(s, tabWidth), Indent(s, tabWidth), AtIndent(s))
  {
    if s != "" {
      var before, c := s[..|s| - 1], s[|s| - 1];
      CountersOf(before, tabWidth);
      assert s == before + [c];
      CountMore(before, c, '\n');
      ColumnMore(before, c, tabWidth);
      ExpectedMore(before, c, tabWidth);
      IndentMore(before, c, tabWidth);
      AtIndentMore(before, c);
      hide Count, Column, Expected, Indent, AtIndent;
    }
  }

  /** How far the last line of `s` is short of what is expected there. */
  function Short(s: string, tabWidth: int): int {
    Expected(s, tabWidth) - Indent(s, tabWidth)
  }

  function WholeTabs(columns: int, tabWidth: int): (n: nat)
    requires tabWidth > 0
    ensures n == 0 || n * tabWidth <= columns
    ensures columns < (n + 1) * tabWidth
  {
    if columns <= 0 then 0
    else
      Divided(columns, tabWidth);
      columns / tabWidth
  }

  lemma Divided(a: nat, b: nat)
    requires b > 0
    ensures a / b >= 0 && a / b * b <= a < (a / b + 1) * b
  {
    var q, r := a / b, a % b;
    assert a == b * q + r && r < b;
    assert (q + 1) * b == b * q + b;
  }

  /** One character of input: behind the outdents that its line is short of, in whole tabs, if it is the first
      ordinary one of a line but the first; and an error if the line is at neither of the two indentations. */
  lemma OutputOf(input: string, n: nat, tabWidth: int)
    requires n < |input| && tabWidth > 0
    ensures var s, c := input[..n], input[n];
            var first, short := IsOrdinary(c) && AtIndent(s), Short(s, tabWidth);
            && Output(input[..n + 1], tabWidth)
               == Output(s, tabWidth) + Repeat(if first then WholeTabs(short, tabWidth) else 0) + [Mark(c, false)]
            && Errors(input[..n + 1], tabWidth)
               == Errors(s, tabWidth)
                  + if first && short != 0 && short != tabWidth then [Error(n, Column(s, tabWidth), Count(s, '\n'))]
                    else []
  {
    PrefixStep(input, n, tabWidth);
    CountersOf(input[..n], tabWidth);
    var short := Short(input[..n], tabWidth);
    TabsDue(short, tabWidth);
    hide After, Output, Errors, Expected, Indent, AtIndent, Count, Column, Repeat;
  }

  lemma TabsDue(a: int, b: int)
    requires b > 0
    ensures WholeTabs(a, b) == if Quotient(a, b) < 0 then 0 else Quotient(a, b)
  {
    if a < 0 {
      Divided(-a, b);
    } else {
      Divided(a, b);
    }
  }
}
