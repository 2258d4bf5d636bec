/**
  The hexdump that ffprobe prints for stream extradata (crates/media/src/ffprobe.rs): lines of an
  address, four-digit hexadecimal words and a text column.
*/
module Hexdump {
  import opened Prelude
  import opened Text
  import opened NumericText
  import Avcc

  const MAX_AVCC_EXTRADATA_BYTES := 4096

  // ---------------------------------------------------------------- text splitting

  function StripCarriageReturn(s: string): string {
    if s != [] && s[|s| - 1] == '\r' then s[..|s| - 1] else s
  }

  /** str::lines. */
  function Lines(s: string): seq<string>
    decreases |s|
  {
    if s == [] then []
    else
      var n := IndexOf(s, '\n');
      if n == |s| then [s] else [StripCarriageReturn(s[..n])] + Lines(s[n + 1..])
  }

  /** The length of the run of non-whitespace at the front. */
  function RunLength(s: string): (n: nat)
    ensures n <= |s| && (n < |s| ==> IsWhitespace(s[n]))
    ensures forall i :: 0 <= i < n ==> !IsWhitespace(s[i])
    ensures s != [] && !IsWhitespace(s[0]) ==> n > 0
  {
    if s == [] || IsWhitespace(s[0]) then 0 else 1 + RunLength(s[1..])
  }

  /** str::split_whitespace. */
  function Tokens(s: string): seq<string>
    decreases |s|
  {
    var t := TrimStart(s);
    if t == [] then []
    else [t[..RunLength(t)]] + Tokens(t[RunLength(t)..])
  }

  // ---------------------------------------------------------------- decoding

  predicate IsWord(token: string) { |token| == 4 && IsHexText(token) }

  /** u16::from_str_radix(token, 16) as big-endian bytes. */
  function WordBytes(token: string): (r: seq<byte>)
    requires IsWord(token)
    ensures |r| == 2
  {
    [Join(HexValue(token[0]).value, HexValue(token[1]).value), Join(HexValue(token[2]).value, HexValue(token[3]).value)]
  }

  /** The bytes of the words before the first token that is no word. */
  function LeadingWords(tokens: seq<string>): seq<byte> {
    if tokens == [] || !IsWord(tokens[0]) then [] else WordBytes(tokens[0]) + LeadingWords(tokens[1..])
  }

  /** What follows the address, if there is one. */
  function LineTokens(line: string): Option<seq<string>> {
    var n := IndexOf(line, ':');
    if n == |line| then None else Some(Tokens(line[n + 1..]))
  }

  /** A line without a colon carries nothing. */
  function LineBytes(line: string): seq<byte> {
    var tokens := LineTokens(line);
    if tokens.None? then [] else LeadingWords(tokens.value)
  }

  function LinesBytes(lines: seq<string>): seq<byte> {
    if lines == [] then [] else LineBytes(lines[0]) + LinesBytes(lines[1..])
  }

  function Capped(bytes: seq<byte>): seq<byte> {
    if |bytes| <= MAX_AVCC_EXTRADATA_BYTES then bytes else bytes[..MAX_AVCC_EXTRADATA_BYTES]
  }

  /** What a dump declares: the record in its first 4096 bytes. */
  function Declared(text: string): Option<Avcc.Declaration> { Avcc.Parse(Capped(LinesBytes(Lines(text)))) }

  /** Some words of a line have been collected, and the limit is not reached yet. */
  ghost predicate Collecting(bytes: seq<byte>, goal: seq<byte>, rest: seq<byte>) {
    |bytes| < MAX_AVCC_EXTRADATA_BYTES && |bytes| % 2 == 0 && goal == bytes + rest
  }

  lemma LeadingStep(tokens: seq<string>, j: nat)
    requires j < |tokens| && IsWord(tokens[j])
    ensures LeadingWords(tokens[j..]) == WordBytes(tokens[j]) + LeadingWords(tokens[j + 1..])
  {
    assert tokens[j..][1..] == tokens[j + 1..];
  }

  lemma LeadingStop(tokens: seq<string>, j: nat)
    requires j == |tokens| || (j < |tokens| && !IsWord(tokens[j]))
    ensures LeadingWords(tokens[j..]) == []
  {}

  lemma CollectStep(bytes: seq<byte>, goal: seq<byte>, word: seq<byte>, rest: seq<byte>)
    requires Collecting(bytes, goal, word + rest) && |word| == 2
    ensures var more := bytes + word;
      more <= goal && goal == more + rest && |more| % 2 == 0 && |more| <= MAX_AVCC_EXTRADATA_BYTES
  {
    Associate(bytes, word, rest);
  }

  /** The inner loop: the words of one line, up to the limit. */
  method CollectWords(before: seq<byte>, tokens: seq<string>) returns (bytes: seq<byte>, full: bool)
    requires |before| < MAX_AVCC_EXTRADATA_BYTES && |before| % 2 == 0
    ensures bytes <= before + LeadingWords(tokens) && |bytes| % 2 == 0
    ensures full <==> |bytes| == MAX_AVCC_EXTRADATA_BYTES
    ensures !full ==> |bytes| < MAX_AVCC_EXTRADATA_BYTES && bytes == before + LeadingWords(tokens)
  {
    ghost var goal := before + LeadingWords(tokens);
    bytes, full := before, false;
    assert tokens[0..] == tokens;
    for j := 0 to |tokens|
      invariant Collecting(bytes, goal, LeadingWords(tokens[j..]))
    {
      if !IsWord(tokens[j]) {
        LeadingStop(tokens, j);
        return;
      }
      LeadingStep(tokens, j);
      CollectStep(bytes, goal, WordBytes(tokens[j]), LeadingWords(tokens[j + 1..]));
      bytes := bytes + WordBytes(tokens[j]);
      if |bytes| >= MAX_AVCC_EXTRADATA_BYTES {
        full := true;
        return;
      }
    }
    LeadingStop(tokens, |tokens|);
  }

  /** The body of the outer loop: one line. */
  method CollectLine(before: seq<byte>, line: string) returns (bytes: seq<byte>, full: bool)
    requires |before| < MAX_AVCC_EXTRADATA_BYTES && |before| % 2 == 0
    ensures bytes <= before + LineBytes(line) && |bytes| % 2 == 0
    ensures full <==> |bytes| == MAX_AVCC_EXTRADATA_BYTES
    ensures !full ==> |bytes| < MAX_AVCC_EXTRADATA_BYTES && bytes == before + LineBytes(line)
  {
    var tokens := LineTokens(line);
    if tokens.None? {
      bytes, full := before, false;
      assert before + [] == before;
    } else {
      bytes, full := CollectWords(before, tokens.value);
    }
  }

  lemma CapPrefix(bytes: seq<byte>, middle: seq<byte>, after: seq<byte>)
    requires bytes <= middle && |bytes| == MAX_AVCC_EXTRADATA_BYTES
    ensures Capped(middle + after) == bytes
  {}

  lemma LinesStep(lines: seq<string>, i: nat)
    requires i < |lines|
    ensures LinesBytes(lines[i..]) == LineBytes(lines[i]) + LinesBytes(lines[i + 1..])
  {
    assert lines[i..][1..] == lines[i + 1..];
  }

  /** One round of the outer loop. */
  method CollectNext(before: seq<byte>, line: string, ghost goal: seq<byte>, ghost rest: seq<byte>)
    returns (bytes: seq<byte>, full: bool)
    requires Collecting(before, goal, LineBytes(line) + rest)
    ensures if full then bytes == Capped(goal) else Collecting(bytes, goal, rest)
  {
    Associate(before, LineBytes(line), rest);
    bytes, full := CollectLine(before, line);
    if full { CapPrefix(bytes, before + LineBytes(line), rest); }
  }

  /** The outer loop: stopping once enough bytes are collected is truncation. */
  method CollectBytes(lines: seq<string>) returns (bytes: seq<byte>)
    ensures bytes == Capped(LinesBytes(lines))
  {
    bytes := [];
    for i := 0 to |lines|
      invariant Collecting(bytes, LinesBytes(lines), LinesBytes(lines[i..]))
    {
      LinesStep(lines, i);
      var full;
      bytes, full := CollectNext(bytes, lines[i], LinesBytes(lines), LinesBytes(lines[i + 1..]));
      if full { return; }
    }
  }

  /** parse_avcc_extradata. */
  method ParseExtradata(value: string) returns (r: Option<Avcc.Declaration>)
    ensures r == Declared(value)
    ensures forall d :: r == Some(d) <==> Avcc.IsRecord(FirstBytes(LinesBytes(Lines(value))), d)
  {
    var bytes := CollectBytes(Lines(value));
    r := Avcc.ParseBytes(bytes);
  }

  /** At most the first 4096 bytes. */
  ghost function FirstBytes(bytes: seq<byte>): seq<byte> { if |bytes| <= 4096 then bytes else bytes[..4096] }

  // ---------------------------------------------------------------- dumps

  /** A line of a dump: text without a colon, or an address, a chunk of words and a text column. */
  datatype DumpLine =
    | Note(text: string)
    | Data(address: string, chunk: seq<byte>, column: string)

  predicate OneLine(s: string) { '\n' !in s && '\r' !in s }

  predicate StartsWithWord(s: string) { Tokens(s) != [] && IsWord(Tokens(s)[0]) }

  /** The shape of a line; an odd last byte, printed as two digits, is part of the column. */
  predicate WellFormed(line: DumpLine) {
    match line
    case Note(text) => OneLine(text) && ':' !in text
    case Data(address, chunk, column) =>
      && OneLine(address) && ':' !in address
      && |chunk| % 2 == 0
      && OneLine(column)
  }

  /** The text column cannot be taken for data. */
  predicate Unmistakable(line: DumpLine) { line.Data? ==> !StartsWithWord(line.column) }

  /** What the column of a line adds to its chunk when it is taken for data. */
  function Stray(line: DumpLine): seq<byte> { if line.Data? then LeadingWords(Tokens(line.column)) else [] }

  function Digits(a: byte, b: byte): string {
    [HexDigit(High(a)), HexDigit(Low(a)), HexDigit(High(b)), HexDigit(Low(b))]
  }

  function Words(chunk: seq<byte>): string
    requires |chunk| % 2 == 0
  {
    if chunk == [] then "" else " " + Digits(chunk[0], chunk[1]) + Words(chunk[2..])
  }

  function LineText(line: DumpLine): string
    requires WellFormed(line)
  {
    match line
    case Note(text) => text
    case Data(address, chunk, column) => address + ":" + (Words(chunk) + (" " + column))
  }

  function Chunk(line: DumpLine): seq<byte> { if line.Note? then [] else line.chunk }

  function DumpText(dump: seq<DumpLine>): string
    requires forall i :: 0 <= i < |dump| ==> WellFormed(dump[i])
  {
    if dump == [] then "" else LineText(dump[0]) + "\n" + DumpText(dump[1..])
  }

  function Payload(dump: seq<DumpLine>): seq<byte> {
    if dump == [] then [] else Chunk(dump[0]) + Payload(dump[1..])
  }

  lemma IndexOfAt(s: string, c: char, n: nat)
    requires n < |s| && s[n] == c && forall i :: 0 <= i < n ==> s[i] != c
    ensures IndexOf(s, c) == n
  {}

  lemma IndexOfAbsent(s: string, c: char)
    requires c !in s
    ensures IndexOf(s, c) == |s|
  {}

  lemma LinesCons(line: string, rest: string)
    requires OneLine(line)
    ensures Lines(line + "\n" + rest) == [line] + Lines(rest)
  {
    var s := line + "\n" + rest;
    IndexOfAt(s, '\n', |line|);
    assert s[..|line|] == line && s[|line| + 1..] == rest;
  }

  lemma DigitsAreWord(a: byte, b: byte)
    ensures IsWord(Digits(a, b)) && WordBytes(Digits(a, b)) == [a, b]
    ensures forall i :: 0 <= i < 4 ==> !IsWhitespace(Digits(a, b)[i])
  {
    DigitLaws(High(a));
    DigitLaws(Low(a));
    DigitLaws(High(b));
    DigitLaws(Low(b));
    SplitLaw(a);
    SplitLaw(b);
  }

  lemma RunLengthAt(s: string, n: nat)
    requires n < |s| && IsWhitespace(s[n]) && forall i :: 0 <= i < n ==> !IsWhitespace(s[i])
    ensures RunLength(s) == n
  {}

  lemma TrimSpace(s: string)
    ensures TrimStart(" " + s) == TrimStart(s)
  {
    assert (" " + s)[1..] == s;
  }

  lemma TokensSpace(s: string)
    ensures Tokens(" " + s) == Tokens(s)
  {
    TrimSpace(s);
  }

  lemma TokensRun(word: string, rest: string)
    requires word != [] && forall i :: 0 <= i < |word| ==> !IsWhitespace(word[i])
    requires rest != [] && IsWhitespace(rest[0])
    ensures Tokens(word + rest) == [word] + Tokens(rest)
  {
    var s := word + rest;
    assert s[0] == word[0];
    RunLengthAt(s, |word|);
    assert s[..|word|] == word && s[|word|..] == rest;
  }

  lemma LeadingCons(word: string, tokens: seq<string>)
    requires IsWord(word)
    ensures LeadingWords([word] + tokens) == WordBytes(word) + LeadingWords(tokens)
  {
    assert ([word] + tokens)[1..] == tokens;
  }

  lemma WordsCons(chunk: seq<byte>, tail: string)
    requires |chunk| % 2 == 0 && chunk != []
    ensures Words(chunk) + tail == " " + (Digits(chunk[0], chunk[1]) + (Words(chunk[2..]) + tail))
  {
    Reassociate(" ", Digits(chunk[0], chunk[1]), Words(chunk[2..]), tail);
  }

  lemma Reassociate<T>(a: seq<T>, b: seq<T>, c: seq<T>, d: seq<T>)
    ensures ((a + b) + c) + d == a + (b + (c + d))
  {}

  lemma WordRead(a: byte, b: byte, rest: string)
    requires rest != [] && IsWhitespace(rest[0])
    ensures LeadingWords(Tokens(" " + (Digits(a, b) + rest))) == [a, b] + LeadingWords(Tokens(rest))
  {
    DigitsAreWord(a, b);
    TokensSpace(Digits(a, b) + rest);
    TokensRun(Digits(a, b), rest);
    LeadingCons(Digits(a, b), Tokens(rest));
  }

  /** The reading takes one printed word off the front at a time. */
  ghost predicate ReadsWords(read: string -> seq<byte>) {
    forall a, b, rest | rest != [] && rest[0] == ' ' :: read(" " + (Digits(a, b) + rest)) == [a, b] + read(rest)
  }

  /** Such a reading gives back all the words, and then whatever it makes of the rest. */
  lemma {:induction false} AllWordsRead(read: string -> seq<byte>, chunk: seq<byte>, tail: string)
    requires ReadsWords(read) && |chunk| % 2 == 0
    requires tail != [] && tail[0] == ' '
    ensures read(Words(chunk) + tail) == chunk + read(tail)
    decreases |chunk|
  {
    if chunk == [] {
      assert Words(chunk) + tail == tail;
    } else {
      var rest := Words(chunk[2..]) + tail;
      AllWordsRead(read, chunk[2..], tail);
      WordsStart(chunk[2..], tail);
      WordsCons(chunk, tail);
      assert read(Words(chunk) + tail) == [chunk[0], chunk[1]] + read(rest);
      FirstPair(chunk);
      Associate([chunk[0], chunk[1]], chunk[2..], read(tail));
    }
  }

  /** The words of a line are read back, and then whatever words follow them. */
  lemma WordsRead(chunk: seq<byte>, tail: string)
    requires |chunk| % 2 == 0
    requires tail != [] && tail[0] == ' '
    ensures LeadingWords(Tokens(Words(chunk) + tail)) == chunk + LeadingWords(Tokens(tail))
  {
    var read := (line: string) => LeadingWords(Tokens(line));
    forall a, b, rest | rest != [] && rest[0] == ' '
      ensures read(" " + (Digits(a, b) + rest)) == [a, b] + read(rest)
    {
      WordRead(a, b, rest);
    }
    AllWordsRead(read, chunk, tail);
  }

  lemma FirstPair(chunk: seq<byte>)
    requires |chunk| >= 2
    ensures chunk == [chunk[0], chunk[1]] + chunk[2..]
  {}

  lemma WordsStart(chunk: seq<byte>, tail: string)
    requires |chunk| % 2 == 0 && tail != [] && tail[0] == ' '
    ensures var s := Words(chunk) + tail; s != [] && s[0] == ' '
  {}

  lemma LineRead(line: DumpLine)
    requires WellFormed(line)
    ensures LineBytes(LineText(line)) == Chunk(line) + Stray(line)
  {
    match line
    case Note(text) =>
      IndexOfAbsent(text, ':');
    case Data(address, chunk, column) =>
      var payload := Words(chunk) + (" " + column);
      var s := LineText(line);
      IndexOfAt(s, ':', |address|);
      assert s[|address| + 1..] == payload;
      TokensSpace(column);
      WordsRead(chunk, " " + column);
  }

  lemma {:induction false} WordsAreOneLine(chunk: seq<byte>)
    requires |chunk| % 2 == 0
    ensures OneLine(Words(chunk))
    decreases |chunk|
  {
    if chunk != [] {
      WordsAreOneLine(chunk[2..]);
      DigitsAreWord(chunk[0], chunk[1]);
      var d := Digits(chunk[0], chunk[1]);
      assert forall c :: c in d ==> !IsWhitespace(c);
      assert IsWhitespace('\n') && IsWhitespace('\r');
    }
  }

  lemma LineTextIsOneLine(line: DumpLine)
    requires WellFormed(line)
    ensures OneLine(LineText(line))
  {
    if line.Data? { WordsAreOneLine(line.chunk); }
  }

  /** What is read from a dump: its chunks, each with the words its column was mistaken for. */
  function ReadBack(dump: seq<DumpLine>): seq<byte> {
    if dump == [] then [] else (Chunk(dump[0]) + Stray(dump[0])) + ReadBack(dump[1..])
  }

  lemma {:induction false} DumpReads(dump: seq<DumpLine>)
    requires forall i :: 0 <= i < |dump| ==> WellFormed(dump[i])
    ensures LinesBytes(Lines(DumpText(dump))) == ReadBack(dump)
    decreases |dump|
  {
    if dump != [] {
      var line, rest := LineText(dump[0]), DumpText(dump[1..]);
      LineTextIsOneLine(dump[0]);
      LinesCons(line, rest);
      LineRead(dump[0]);
      DumpReads(dump[1..]);
      assert ([line] + Lines(rest))[1..] == Lines(rest);
    }
  }

  lemma StrayExactly(line: DumpLine)
    ensures Stray(line) == [] <==> Unmistakable(line)
  {}

  lemma {:induction false} ReadBackExactly(dump: seq<DumpLine>)
    ensures |ReadBack(dump)| >= |Payload(dump)|
    ensures |ReadBack(dump)| == |Payload(dump)| <==> forall i :: 0 <= i < |dump| ==> Unmistakable(dump[i])
    ensures |ReadBack(dump)| == |Payload(dump)| ==> ReadBack(dump) == Payload(dump)
    decreases |dump|
  {
    if dump != [] {
      ReadBackExactly(dump[1..]);
      StrayExactly(dump[0]);
      assert forall i :: 1 <= i < |dump| ==> dump[i] == dump[1..][i - 1];
      if Unmistakable(dump[0]) { assert Chunk(dump[0]) + Stray(dump[0]) == Chunk(dump[0]); }
    }
  }

  /** A dump is read back byte for byte exactly when no text column begins with a four-digit word. */
  lemma DumpRoundTrip(dump: seq<DumpLine>)
    requires forall i :: 0 <= i < |dump| ==> WellFormed(dump[i])
    ensures LinesBytes(Lines(DumpText(dump))) == Payload(dump) <==>
      forall i :: 0 <= i < |dump| ==> Unmistakable(dump[i])
  {
    DumpReads(dump);
    ReadBackExactly(dump);
  }

  /** Such a dump declares exactly what its first 4096 bytes, as a record, declare. */
  lemma DumpDeclares(dump: seq<DumpLine>, d: Avcc.Declaration)
    requires forall i :: 0 <= i < |dump| ==> WellFormed(dump[i]) && Unmistakable(dump[i])
    ensures Declared(DumpText(dump)) == Some(d) <==> Avcc.IsRecord(FirstBytes(Payload(dump)), d)
  {
    DumpRoundTrip(dump);
    Avcc.ParseExact(FirstBytes(Payload(dump)));
  }

  /** Text without a colon declares nothing. */
  lemma {:induction false} NoColonNoBytes(text: string)
    requires ':' !in text
    ensures LinesBytes(Lines(text)) == []
    decreases |text|
  {
    if text != [] {
      var n := IndexOf(text, '\n');
      var first := if n == |text| then text else StripCarriageReturn(text[..n]);
      assert forall c :: c in first ==> c in text;
      IndexOfAbsent(first, ':');
      if n < |text| {
        NoColonNoBytes(text[n + 1..]);
        assert ([first] + Lines(text[n + 1..]))[1..] == Lines(text[n + 1..]);
      }
    }
  }
}
