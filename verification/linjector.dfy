/** Word-wise access to another process's memory: copying a buffer into it, and searching it for an INT3.
    A word (`gsize`) has 8 bytes, the lowest first. */
module Linjector {
  import opened Outcomes

  /** Bytes by address; an address that is not there is not mapped. */
  type Memory = map<int, byte>

  const INT3: byte := 0xcc

  /** The number a word of memory holds, lowest byte first. */
  function WordValue(bs: seq<byte>): nat {
    if bs == [] then 0 else bs[0] + 256 * WordValue(bs[1..])
  }

  function WordBytes(value: nat, count: nat): (bs: seq<byte>)
    ensures |bs| == count
  {
    if count == 0 then [] else [value % 256] + WordBytes(value / 256, count - 1)
  }

  lemma {:induction false} WordRoundTrip(bs: seq<byte>)
    ensures WordBytes(WordValue(bs), |bs|) == bs
  {
    if bs != [] {
      WordRoundTrip(bs[1..]);
      assert WordValue(bs) % 256 == bs[0] && WordValue(bs) / 256 == WordValue(bs[1..]);
    }
  }

  predicate Mapped(m: Memory, address: nat, count: nat) {
    forall a :: address <= a < address + count ==> a in m
  }

  /** `m` with `bs` stored from `address` on. */
  function Store(m: Memory, address: nat, bs: seq<byte>): Memory
    decreases |bs|
  {
    if bs == [] then m else Store(m[address := bs[0]], address + 1, bs[1..])
  }

  lemma {:induction false} StoredAt(m: Memory, address: nat, bs: seq<byte>, a: nat)
    ensures a in Store(m, address, bs) <==> a in m || address <= a < address + |bs|
    ensures a in Store(m, address, bs) ==>
              Store(m, address, bs)[a] == if address <= a < address + |bs| then bs[a - address] else m[a]
    decreases |bs|
  {
    if bs != [] { StoredAt(m[address := bs[0]], address + 1, bs[1..], a); }
  }

  /** `m` with words stored one after the other from `address` on. */
  function StoreWords(m: Memory, address: nat, words: seq<seq<byte>>): Memory
    requires forall i :: 0 <= i < |words| ==> |words[i]| == 8
    decreases |words|
  {
    if words == [] then m
    else
      var n := |words| - 1;
      Store(StoreWords(m, address, words[..n]), address + 8 * n, words[n])
  }

  /** Byte by byte: the words, and nothing else, are changed. */
  lemma {:induction false} StoredByte(m: Memory, address: nat, words: seq<seq<byte>>, a: nat)
    requires forall i :: 0 <= i < |words| ==> |words[i]| == 8
    ensures a in StoreWords(m, address, words) <==> a in m || address <= a < address + 8 * |words|
    ensures a in StoreWords(m, address, words) ==>
              StoreWords(m, address, words)[a]
              == if address <= a < address + 8 * |words| then words[(a - address) / 8][(a - address) % 8] else m[a]
    decreases |words|
  {
    if words != [] {
      var n := |words| - 1;
      StoredByte(m, address, words[..n], a);
      StoredAt(StoreWords(m, address, words[..n]), address + 8 * n, words[n], a);
    }
  }

  /** The words of a buffer; the last one is made up with garbage if the buffer is not whole words. */
  function Words(data: seq<byte>, garbage: seq<byte>): (words: seq<seq<byte>>)
    requires |garbage| == 8
    ensures |words| == WordsFor(|data|) && forall i :: 0 <= i < |words| ==> |words[i]| == 8
    decreases |data|
  {
    if data == [] then []
    else if |data| < 8 then [data + garbage[|data|..]]
    else [data[..8]] + Words(data[8..], garbage)
  }

  /** Word `k` of a buffer, made up with garbage if it is partial. */
  function PaddedWord(data: seq<byte>, garbage: seq<byte>, k: nat): seq<byte>
    requires |garbage| == 8 && k < WordsFor(|data|)
  {
    if 8 * k + 8 <= |data| then data[8 * k..8 * k + 8] else data[8 * k..] + garbage[|data| - 8 * k..]
  }

  lemma {:induction false} WordAt(data: seq<byte>, garbage: seq<byte>, k: nat)
    requires |garbage| == 8 && k < WordsFor(|data|)
    ensures Words(data, garbage)[k] == PaddedWord(data, garbage, k)
    decreases k
  {
    hide WordsFor;
    if k > 0 {
      WordAt(data[8..], garbage, k - 1);
      NextWord(data, garbage, k);
    } else {
      FirstWord(data, garbage);
    }
    hide PaddedWord;
  }

  lemma FirstWord(data: seq<byte>, garbage: seq<byte>)
    requires |garbage| == 8 && 0 < WordsFor(|data|)
    ensures PaddedWord(data, garbage, 0) == Words(data, garbage)[0]
  {
    hide WordsFor;
    assert data[0..] == data;
  }

  lemma NextWord(data: seq<byte>, garbage: seq<byte>, k: nat)
    requires |garbage| == 8 && 0 < k < WordsFor(|data|)
    ensures |data| >= 8 && k - 1 < WordsFor(|data| - 8)
    ensures PaddedWord(data, garbage, k) == PaddedWord(data[8..], garbage, k - 1)
  {
    hide WordsFor;
    assert data[8..][8 * (k - 1)..] == data[8 * k..];
    if 8 * k + 8 <= |data| {
      assert data[8..][8 * (k - 1)..8 * k] == data[8 * k..8 * k + 8];
    }
  }

  lemma PaddedByte(data: seq<byte>, garbage: seq<byte>, k: nat, b: nat)
    requires |garbage| == 8 && b < 8 && 8 * k + b < |data| && k < WordsFor(|data|)
    ensures PaddedWord(data, garbage, k)[b] == data[8 * k + b]
  {
    hide WordsFor;
  }

  /** How many of the first `words` words from `address` on can be accessed before the first that cannot. */
  function Accessible(m: Memory, address: nat, words: nat): (k: nat)
    ensures k <= words
    decreases words
  {
    if words == 0 || !Mapped(m, address, 8) then 0
    else
      1 + Accessible(m, address + 8, words - 1)
  }

  lemma {:induction false} AccessibleSpec(m: Memory, address: nat, words: nat)
    ensures Mapped(m, address, Accessible(m, address, words) * 8)
    ensures Accessible(m, address, words) < words ==> !Mapped(m, address + Accessible(m, address, words) * 8, 8)
    decreases words
  {
    if words > 0 && Mapped(m, address, 8) { AccessibleSpec(m, address + 8, words - 1); }
  }

  lemma AccessibleAll(m: Memory, address: nat, words: nat)
    ensures Accessible(m, address, words) == words <==> Mapped(m, address, words * 8)
  {
    AccessibleSpec(m, address, words);
    var k := Accessible(m, address, words);
    assert k < words ==> exists a :: address + k * 8 <= a < address + k * 8 + 8 && a !in m;
  }

  /** The least number of words that hold `size` bytes. */
  function WordsFor(size: nat): (words: nat)
    ensures size <= 8 * words < size + 8
  {
    (size + 8 - 1) / 8
  }

  class Process {
    var memory: Memory

    /** PTRACE_POKEDATA */
    method Poke(address: nat, value: nat) returns (ok: bool)
      modifies this
      ensures ok <==> Mapped(old(memory), address, 8)
      ensures memory == if ok then Store(old(memory), address, WordBytes(value, 8)) else old(memory)
    {
      ok := Mapped(memory, address, 8);
      if ok {
        memory := Store(memory, address, WordBytes(value, 8));
      }
    }

    /** PTRACE_PEEKDATA */
    method Peek(address: nat) returns (value: Option<nat>)
      ensures value == if Mapped(memory, address, 8) then Some(WordValue(Load(memory, address, 8))) else None
    {
      if Mapped(memory, address, 8) {
        value := Some(WordValue(Load(memory, address, 8)));
      } else {
        value := None;
      }
    }

    /** `zed_remote_write`; `garbage` is what the stack holds where the last, partial word is built. The words
        that could be poked hold the data; the write succeeds iff all of them could. */
    method RemoteWrite(remoteAddress: nat, data: seq<byte>, garbage: seq<byte>) returns (ok: bool)
      requires |garbage| == 8
      modifies this
      ensures ok <==> Mapped(old(memory), remoteAddress, WordsFor(|data|) * 8)
      ensures memory == Written(old(memory), remoteAddress, data, garbage,
                                Accessible(old(memory), remoteAddress, WordsFor(|data|)))
    {
      hide Mapped, Written, Accessible, WordsFor, PaddedWord;
      ghost var start, words := memory, WordsFor(|data|);
      AccessibleAll(start, remoteAddress, words);
      NothingWritten(start, remoteAddress, data, garbage);
      var whole, remainder := |data| / 8, |data| % 8;
      assert |data| == 8 * whole + remainder;
      var dst, src := remoteAddress, 0;
      ghost var done := 0;
      while dst != remoteAddress + whole * 8
        invariant done <= whole && dst == remoteAddress + done * 8 && src == done * 8
        invariant done <= Accessible(start, remoteAddress, words)
        invariant memory == Written(start, remoteAddress, data, garbage, done)
        decreases whole - done
      {
        WholeWord(data, garbage, done);
        var poked := PokeNext(start, remoteAddress, data, garbage, done, dst, data[src..src + 8]);
        if !poked {
          return false;
        }
        dst := dst + 8;
        src := src + 8;
        done := done + 1;
      }
      ok := PokeTail(start, remoteAddress, data, garbage, whole, remainder, dst, src);
    }

    /** The part after the loop: the last word, if it is partial. */
    method PokeTail(ghost start: Memory, ghost address: nat, data: seq<byte>, garbage: seq<byte>, ghost whole: nat,
                    remainder: nat, dst: nat, src: nat)
      returns (ok: bool)
      requires |garbage| == 8 && |data| == 8 * whole + remainder && remainder < 8
      requires dst == address + whole * 8 && src == whole * 8
      requires whole <= WordsFor(|data|) && whole <= Accessible(start, address, WordsFor(|data|))
      requires memory == Written(start, address, data, garbage, whole)
      modifies this
      ensures ok <==> Accessible(start, address, WordsFor(|data|)) == WordsFor(|data|)
      ensures memory == Written(start, address, data, garbage, Accessible(start, address, WordsFor(|data|)))
    {
      hide Mapped, Written, Accessible, WordsFor, PaddedWord;
      if remainder == 0 {
        return true;
      }
      LastWord(data, garbage, whole, remainder);
      var word := data[src..src + remainder] + garbage[remainder..];
      ok := PokeNext(start, address, data, garbage, whole, dst, word);
    }

    /** Pokes the word that comes after the `done` words poked so far. */
    method PokeNext(ghost start: Memory, ghost address: nat, ghost data: seq<byte>, ghost garbage: seq<byte>,
                    ghost done: nat, dst: nat, word: seq<byte>)
      returns (ok: bool)
      requires |garbage| == 8 && done < WordsFor(|data|) && word == PaddedWord(data, garbage, done)
      requires dst == address + done * 8 && done <= Accessible(start, address, WordsFor(|data|))
      requires memory == Written(start, address, data, garbage, done)
      modifies this
      ensures ok <==> done < Accessible(start, address, WordsFor(|data|))
      ensures memory == Written(start, address, data, garbage, if ok then done + 1 else done)
    {
      WordAt(data, garbage, done);
      WrittenNext(start, address, data, garbage, done);
      hide Mapped, Store, Written, Accessible, Words, WordBytes, WordValue, WordsFor, PaddedWord;
      ok := Poke(dst, WordValue(word));
    }
  }

  /** Memory after the first `done` words of a buffer have been poked. */
  ghost function Written(m: Memory, address: nat, data: seq<byte>, garbage: seq<byte>, done: nat): Memory
    requires |garbage| == 8 && done <= WordsFor(|data|)
  {
    StoreWords(m, address, Words(data, garbage)[..done])
  }

  /** Poking the next word: whether it succeeds, and what it leaves. */
  lemma WrittenNext(m: Memory, address: nat, data: seq<byte>, garbage: seq<byte>, done: nat)
    requires |garbage| == 8 && done < WordsFor(|data|) && done <= Accessible(m, address, WordsFor(|data|))
    ensures var before, word := Written(m, address, data, garbage, done), Words(data, garbage)[done];
            && (Mapped(before, address + done * 8, 8) <==> done < Accessible(m, address, WordsFor(|data|)))
            && Store(before, address + done * 8, WordBytes(WordValue(word), 8))
               == Written(m, address, data, garbage, done + 1)
  {
    hide Mapped, Store, StoreWords, Accessible, Words, WordBytes, WordValue;
    var words := Words(data, garbage);
    PokedBytes(words, done);
    PokeReach(m, address, words, done);
    PokeStores(m, address, words, done);
  }

  lemma NothingWritten(m: Memory, address: nat, data: seq<byte>, garbage: seq<byte>)
    requires |garbage| == 8
    ensures Written(m, address, data, garbage, 0) == m
  {
    hide Words;
    assert Words(data, garbage)[..0] == [];
  }

  lemma WholeWord(data: seq<byte>, garbage: seq<byte>, k: nat)
    requires |garbage| == 8 && 8 * k + 8 <= |data|
    ensures k < WordsFor(|data|) && PaddedWord(data, garbage, k) == data[8 * k..8 * k + 8]
  {
    hide WordsFor;
  }

  lemma LastWord(data: seq<byte>, garbage: seq<byte>, whole: nat, remainder: nat)
    requires |garbage| == 8 && |data| == 8 * whole + remainder && 0 < remainder < 8
    ensures whole < WordsFor(|data|)
    ensures PaddedWord(data, garbage, whole) == data[8 * whole..8 * whole + remainder] + garbage[remainder..]
  {
    hide WordsFor;
    assert data[8 * whole..] == data[8 * whole..8 * whole + remainder];
  }

  lemma PokedBytes(words: seq<seq<byte>>, done: nat)
    requires done < |words| && |words[done]| == 8
    ensures WordBytes(WordValue(words[done]), 8) == words[done]
  {
    WordRoundTrip(words[done]);
  }

  /** Whether the next poke succeeds after `done` words have been written. */
  lemma PokeReach(m: Memory, address: nat, words: seq<seq<byte>>, done: nat)
    requires forall i :: 0 <= i < |words| ==> |words[i]| == 8
    requires done < |words| && done <= Accessible(m, address, |words|)
    ensures Mapped(StoreWords(m, address, words[..done]), address + done * 8, 8)
       <==> done < Accessible(m, address, |words|)
  {
    AccessibleAt(m, address, |words|, done);
    AccessiblePrefix(m, address, |words|, done);
    hide Mapped, Accessible, StoreWords;
    SameMapping(m, address, words[..done], address + done * 8);
  }

  /** What it leaves. */
  lemma PokeStores(m: Memory, address: nat, words: seq<seq<byte>>, done: nat)
    requires (forall i :: 0 <= i < |words| ==> |words[i]| == 8) && done < |words|
    ensures Store(StoreWords(m, address, words[..done]), address + done * 8, words[done])
         == StoreWords(m, address, words[..done + 1])
  {
    hide Store;
    assert words[..done + 1][..done] == words[..done] && |words[..done + 1]| == done + 1;
  }

  function Load(m: Memory, address: nat, count: nat): (bs: seq<byte>)
    requires Mapped(m, address, count)
    ensures |bs| == count
  {
    seq(count, i requires 0 <= i < count && Mapped(m, address, count) => m[address + i])
  }

  /** Pokes change what the mapped addresses hold, not which they are. */
  lemma SameMapping(m: Memory, address: nat, words: seq<seq<byte>>, at: nat)
    requires (forall i :: 0 <= i < |words| ==> |words[i]| == 8) && Mapped(m, address, 8 * |words|)
    ensures Mapped(StoreWords(m, address, words), at, 8) <==> Mapped(m, at, 8)
  {
    forall a: nat ensures a in StoreWords(m, address, words) <==> a in m {
      StoredByte(m, address, words, a);
    }
  }

  lemma AccessiblePrefix(m: Memory, address: nat, words: nat, done: nat)
    requires done <= Accessible(m, address, words)
    ensures Mapped(m, address, 8 * done)
  {
    AccessibleSpec(m, address, words);
  }

  lemma AccessibleAt(m: Memory, address: nat, words: nat, done: nat)
    requires done < words && done <= Accessible(m, address, words)
    ensures done < Accessible(m, address, words) <==> Mapped(m, address + done * 8, 8)
  {
    AccessibleSpec(m, address, words);
  }

  /** What a write leaves, successful or not: in the words that could be poked exactly the data, up to its
      end, and everything outside them as it was. */
  lemma WriteEffect(m: Memory, address: nat, data: seq<byte>, garbage: seq<byte>, a: nat)
    requires |garbage| == 8 && a in m
    ensures var reach := Accessible(m, address, WordsFor(|data|));
            var after := Written(m, address, data, garbage, reach);
            && a in after
            && (address <= a < address + 8 * reach && a < address + |data| ==> after[a] == data[a - address])
            && (a < address || address + 8 * reach <= a ==> after[a] == m[a])
  {
    hide Words, StoreWords, Accessible, WordsFor, PaddedWord;
    var words, reach := Words(data, garbage), Accessible(m, address, WordsFor(|data|));
    StoredByte(m, address, words[..reach], a);
    if address <= a < address + 8 * reach && a < address + |data| {
      var k, b := (a - address) / 8, (a - address) % 8;
      WordAt(data, garbage, k);
      PaddedByte(data, garbage, k, b);
    }
  }

  /** A successful write leaves the data over exactly [address, address + size) and changes nothing beyond the
      end of its last word. */
  lemma WriteSuccess(m: Memory, address: nat, data: seq<byte>, garbage: seq<byte>, a: nat)
    requires |garbage| == 8 && Mapped(m, address, WordsFor(|data|) * 8) && a in m
    ensures var after := Written(m, address, data, garbage, Accessible(m, address, WordsFor(|data|)));
            && a in after
            && (address <= a < address + |data| ==> after[a] == data[a - address])
            && (a < address || address + 8 * WordsFor(|data|) <= a ==> after[a] == m[a])
  {
    AccessibleAll(m, address, WordsFor(|data|));
    WriteEffect(m, address, data, garbage, a);
  }

  // ---- The landing strip.

  datatype Range = Range(base: nat, size: nat)

  /** First index of an INT3 in a word's bytes, or their number. */
  function FirstInt3(bs: seq<byte>): (i: nat)
    ensures i <= |bs| && (forall j :: 0 <= j < i ==> bs[j] != INT3) && (i < |bs| ==> bs[i] == INT3)
  {
    if bs == [] || bs[0] == INT3 then 0 else 1 + FirstInt3(bs[1..])
  }

  /** The end of the part of a range that is searched: whole words, up to the first that cannot be read. */
  function SearchEnd(m: Memory, range: Range): nat {
    range.base + Accessible(m, range.base, range.size / 8) * 8
  }

  /** The lowest address from `from` below `end` that holds an INT3, found byte by byte. */
  function LowestInt3(m: Memory, from: nat, end: nat): Option<nat>
    decreases end - from
  {
    if from >= end || from !in m then None
    else if m[from] == INT3 then Some(from)
    else LowestInt3(m, from + 1, end)
  }

  lemma {:induction false} LowestInt3IsLowest(m: Memory, from: nat, end: nat)
    requires from <= end && Mapped(m, from, end - from)
    ensures match LowestInt3(m, from, end)
            case Some(a) => from <= a < end && m[a] == INT3 && forall b :: from <= b < a ==> m[b] != INT3
            case None => forall b :: from <= b < end ==> m[b] != INT3
    decreases end - from
  {
    if from < end { LowestInt3IsLowest(m, from + 1, end); }
  }

  /** Going over a word at once is going over its bytes. */
  lemma {:induction false} WordSearch(m: Memory, from: nat, count: nat, end: nat)
    requires from + count <= end && Mapped(m, from, count)
    ensures LowestInt3(m, from, end)
         == if FirstInt3(Load(m, from, count)) < count then Some(from + FirstInt3(Load(m, from, count)))
            else LowestInt3(m, from + count, end)
    decreases count
  {
    if count > 0 {
      var word := Load(m, from, count);
      assert word[0] == m[from] && word[1..] == Load(m, from + 1, count - 1);
      hide Load, Mapped;
      if m[from] != INT3 {
        WordSearch(m, from + 1, count - 1, end);
      }
    }
  }

  /** Where the search of a range can succeed from. A hit at address 0 reads as nothing found, and the rest of
      its word is not looked at. */
  function SearchStart(m: Memory, range: Range): nat {
    if range.base == 0 && 0 in m && m[0] == INT3 then 8 else range.base
  }

  function Hit(m: Memory, range: Range): Option<nat> {
    LowestInt3(m, SearchStart(m, range), SearchEnd(m, range))
  }

  /** The first hit, in the order of the ranges. */
  function FirstHit(m: Memory, ranges: seq<Range>): Option<nat> {
    if ranges == [] then None
    else
      match Hit(m, ranges[0])
      case Some(a) => Some(a)
      case None => FirstHit(m, ranges[1..])
  }

  /** The source's pointer for a result, which is null for none. */
  function Pointer(result: Option<nat>): nat {
    match result
    case None => 0
    case Some(a) => a
  }

  lemma {:induction false} HitNotBefore(m: Memory, from: nat, end: nat)
    ensures LowestInt3(m, from, end).Some? ==> LowestInt3(m, from, end).value >= from
    decreases end - from
  {
    if from < end { HitNotBefore(m, from + 1, end); }
  }

  lemma HitIsNotNull(m: Memory, range: Range)
    ensures Hit(m, range).Some? ==> Hit(m, range).value != 0
  {
    HitNotBefore(m, SearchStart(m, range), SearchEnd(m, range));
    if SearchStart(m, range) == 0 { HitNotBefore(m, 1, SearchEnd(m, range)); }
  }

  /** The search of a range goes on as long as the next word can be read. */
  lemma SearchedSoFar(m: Memory, range: Range, done: nat)
    requires done <= Accessible(m, range.base, range.size / 8) && done < range.size / 8
    ensures var cur := range.base + done * 8;
            if Mapped(m, cur, 8) then done < Accessible(m, range.base, range.size / 8) && cur + 8 <= SearchEnd(m, range)
            else cur == SearchEnd(m, range)
  {
    AccessibleAt(m, range.base, range.size / 8, done);
    hide Accessible, Mapped;
  }

  /** What one word contributes: its first INT3, unless that is address 0. */
  lemma SearchStep(m: Memory, range: Range, cur: nat, i: nat)
    requires range.base <= cur && cur + 8 <= SearchEnd(m, range) && Mapped(m, cur, 8)
    requires (cur - range.base) % 8 == 0 && i == FirstInt3(Load(m, cur, 8))
    ensures var start, end := SearchStart(m, range), SearchEnd(m, range);
            var rest := LowestInt3(m, if cur < start then start else cur, end);
            && (i < 8 && cur + i != 0 ==> rest == Some(cur + i))
            && (!(i < 8 && cur + i != 0) ==> rest == LowestInt3(m, cur + 8, end))
  {
    var end := SearchEnd(m, range);
    WordSearch(m, cur, 8, end);
    var word := Load(m, cur, 8);
    assert word[0] == m[cur];
    hide SearchEnd, Accessible, Load, Mapped;
    if i == 0 && cur == 0 {
      assert SearchStart(m, range) == 8;
    }
    hide LowestInt3;
  }

  lemma FirstByte(bs: seq<byte>)
    requires bs != []
    ensures WordValue(bs) % 256 == bs[0] && WordValue(bs) / 256 == WordValue(bs[1..])
  {
  }

  class LandingStripSearch {
    const process: Process
    var result: nat

    constructor (process: Process)
      ensures this.process == process && result == 0
    {
      this.process := process;
      result := 0;
    }

    /** The shifts and masks over one word. */
    static method FindInt3(ret: nat, ghost word: seq<byte>) returns (i: nat)
      requires |word| == 8 && ret == WordValue(word)
      ensures i == FirstInt3(word)
    {
      var val := ret;
      i := 0;
      while i != 8
        invariant i <= 8 && val == WordValue(word[i..])
        invariant forall j :: 0 <= j < i ==> word[j] != INT3
      {
        assert word[i..][0] == word[i] && word[i..][1..] == word[i + 1..];
        FirstByte(word[i..]);
        hide WordValue, FirstInt3;
        if val % 256 == INT3 {
          break;
        }
        val := val / 256;
        i := i + 1;
      }
    }

    /** `zed_examine_range_for_landing_strip`; the answer is whether to go on with the next range. */
    method ExamineRange(range: Range) returns (goOn: bool)
      requires result == 0
      modifies this
      ensures result == Pointer(Hit(process.memory, range))
      ensures goOn <==> Hit(process.memory, range) == None
    {
      var words := range.size / 8;
      ghost var m := process.memory;
      ghost var start, stop := SearchStart(m, range), SearchEnd(m, range);
      var cur, end := range.base, range.base + words * 8;
      ghost var done := 0;
      HitIsNotNull(m, range);
      while result == 0 && cur != end
        invariant done <= Accessible(m, range.base, words) && cur == range.base + done * 8
        invariant result == 0 ==> Hit(m, range) == LowestInt3(m, if cur < start then start else cur, stop)
        invariant result != 0 ==> Hit(m, range) == Some(result)
        decreases result == 0, words - done
      {
        SearchedSoFar(m, range, done);
        hide Accessible, Mapped, LowestInt3, WordValue, FirstInt3, Hit, SearchStart, SearchEnd;
        var ret := process.Peek(cur);
        if ret == None {
          assert cur == stop;
          break;
        }
        SearchStep(m, range, cur, FirstInt3(Load(m, cur, 8)));
        var i := FindInt3(ret.value, Load(m, cur, 8));
        if i < 8 {
          result := cur + i;
        }
        cur := cur + 8;
        done := done + 1;
      }
      return result == 0;
    }

    /** `zed_find_landing_strip`: the enumeration goes on until a range answers no. */
    method Find(ranges: seq<Range>)
      requires result == 0
      modifies this
      ensures result == Pointer(FirstHit(process.memory, ranges))
    {
      hide Hit;
      var n, goOn := 0, true;
      while goOn && n < |ranges|
        invariant n <= |ranges| && (goOn ==> result == 0)
        invariant goOn ==> FirstHit(process.memory, ranges) == FirstHit(process.memory, ranges[n..])
        invariant !goOn ==> Pointer(FirstHit(process.memory, ranges)) == result
      {
        assert ranges[n..][0] == ranges[n] && ranges[n..][1..] == ranges[n + 1..];
        goOn := ExamineRange(ranges[n]);
        n := n + 1;
      }
    }
  }

  lemma HitSpec(m: Memory, range: Range)
    ensures match Hit(m, range)
            case None => forall b :: SearchStart(m, range) <= b < SearchEnd(m, range) ==> b in m && m[b] != INT3
            case Some(a) => SearchStart(m, range) <= a < SearchEnd(m, range) && a in m && m[a] == INT3
                            && forall b :: SearchStart(m, range) <= b < a ==> b in m && m[b] != INT3
  {
    var start, end := SearchStart(m, range), SearchEnd(m, range);
    AccessibleSpec(m, range.base, range.size / 8);
    if start <= end { LowestInt3IsLowest(m, start, end); }
  }

  /** The address is in a whole word of the range, and that word and all before it can be read; but the first word
      of a range at address 0 is left out if address 0 holds an INT3, as null means nothing found. */
  ghost predicate Searched(m: Memory, range: Range, a: nat) {
    && range.base <= a < range.base + range.size / 8 * 8
    && Mapped(m, range.base, (a - range.base) / 8 * 8 + 8)
    && !(range.base == 0 && a < 8 && m[0] == 0xcc)
  }

  lemma SearchedIff(m: Memory, range: Range, a: nat)
    ensures Searched(m, range, a) <==> SearchStart(m, range) <= a < SearchEnd(m, range)
  {
    var reach := Accessible(m, range.base, range.size / 8);
    AccessibleSpec(m, range.base, range.size / 8);
    if range.base <= a {
      var w := (a - range.base) / 8;
      assert 8 * w <= a - range.base < 8 * w + 8;
      ReachesWord(m, range, w);
      hide Accessible;
    }
  }

  /** Which words are searched. */
  lemma ReachesWord(m: Memory, range: Range, w: nat)
    ensures w < Accessible(m, range.base, range.size / 8) <==>
              w < range.size / 8 && Mapped(m, range.base, w * 8 + 8)
  {
    var reach := Accessible(m, range.base, range.size / 8);
    AccessibleSpec(m, range.base, range.size / 8);
    hide Accessible;
    if reach <= w { MappedPart(m, range.base, w * 8 + 8, reach * 8, 8); }
    if w < reach { MappedPart(m, range.base, reach * 8, 0, w * 8 + 8); }
    hide Mapped;
  }

  lemma MappedPart(m: Memory, address: nat, count: nat, from: nat, part: nat)
    requires from + part <= count
    ensures Mapped(m, address, count) ==> Mapped(m, address + from, part)
  {
  }

  /** No address of the range that is searched and below `end` holds a 0xcc. */
  ghost predicate NoneBelow(m: Memory, range: Range, end: nat) {
    forall b: nat :: b < end && Searched(m, range, b) ==> b in m && m[b] != 0xcc
  }

  /** No address of the range that is searched holds a 0xcc. */
  ghost predicate NoneIn(m: Memory, range: Range) {
    forall b: nat :: Searched(m, range, b) ==> b in m && m[b] != 0xcc
  }

  /** What is found in a range, said of its bytes. */
  lemma HitIsFirst(m: Memory, range: Range)
    ensures match Hit(m, range)
            case None => NoneIn(m, range)
            case Some(a) => Searched(m, range, a) && a in m && m[a] == 0xcc && NoneBelow(m, range, a)
  {
    HitSpec(m, range);
    forall b: nat
      ensures Searched(m, range, b) <==> SearchStart(m, range) <= b < SearchEnd(m, range)
    {
      SearchedIff(m, range, b);
    }
    hide Hit, SearchStart, SearchEnd, Searched;
  }

  /** An address found is a 0xcc in the searched part of some range, with none searched below it in that range and
      none in the ranges before; nothing is found iff no searched part holds one. */
  lemma {:induction false} FirstHitIsFirst(m: Memory, ranges: seq<Range>) returns (k: nat)
    ensures k <= |ranges| && forall n :: 0 <= n < k ==> NoneIn(m, ranges[n])
    ensures match FirstHit(m, ranges)
            case None => k == |ranges|
            case Some(a) =>
              k < |ranges| && Searched(m, ranges[k], a) && a in m && m[a] == 0xcc && NoneBelow(m, ranges[k], a)
    decreases |ranges|
  {
    hide Hit, Searched, NoneIn, NoneBelow;
    if ranges == [] {
      k := 0;
    } else {
      HitIsFirst(m, ranges[0]);
      if Hit(m, ranges[0]).Some? {
        k := 0;
      } else {
        var j := FirstHitIsFirst(m, ranges[1..]);
        k := j + 1;
      }
    }
  }
}
