/**
  The avcC record and the codec declaration derived from it (crates/media/src/ffprobe.rs). The record
  is specified in section 5.3.3.1 of ISO/IEC 14496-15: a six-byte header, the sequence parameter sets,
  the picture parameter sets, then anything.
*/
module Avcc {
  import opened Prelude

  /** u16::from_be_bytes. */
  function Word(high: byte, low: byte): nat { (high as int) * 256 + low as int }

  datatype Declaration = Declaration(profile: byte, compatibility: byte, level: byte)

  // ---------------------------------------------------------------- the format

  type Nal = e: seq<byte> | |e| < 0x1_0000

  /** One length-prefixed parameter set. */
  ghost function Entry(e: Nal): seq<byte> { [|e| / 256, |e| % 256] + e }

  ghost function Entries(es: seq<Nal>): seq<byte> {
    if es == [] then [] else Entry(es[0]) + Entries(es[1..])
  }

  /** The header: version 1, the three declared bytes, four-byte NAL lengths, and the SPS count. */
  ghost predicate IsHeader(header: seq<byte>, d: Declaration, spsCount: nat) {
    && |header| == 6 && header[0] == 1 && header[4] % 4 == 3 && header[5] % 32 == spsCount
    && d == Declaration(header[1], header[2], header[3])
  }

  ghost predicate Layout(
    bytes: seq<byte>, d: Declaration, header: seq<byte>, sps: seq<Nal>, pps: seq<Nal>, tail: seq<byte>)
  {
    && IsHeader(header, d, |sps|) && |sps| > 0 && 0 < |pps| < 256
    && bytes == header + Entries(sps) + [|pps|] + Entries(pps) + tail
  }

  ghost predicate IsRecord(bytes: seq<byte>, d: Declaration) {
    exists header, sps: seq<Nal>, pps: seq<Nal>, tail :: Layout(bytes, d, header, sps, pps, tail)
  }

  // ---------------------------------------------------------------- the parser

  /** The offset after `n` entries, if they are all there. */
  function Skip(bytes: seq<byte>, offset: nat, n: nat): (r: Option<nat>)
    ensures r.Some? ==> offset <= r.value <= |bytes| || n == 0
    decreases n
  {
    if n == 0 then Some(offset)
    else if offset + 1 >= |bytes| then None
    else
      var next := offset + 2 + Word(bytes[offset], bytes[offset + 1]);
      if next > |bytes| then None else Skip(bytes, next, n - 1)
  }

  function Parse(bytes: seq<byte>): Option<Declaration> {
    if |bytes| < 8 || bytes[0] != 1 || bytes[4] % 4 != 3 || bytes[5] % 32 == 0 then None
    else
      match Skip(bytes, 6, bytes[5] % 32)
      case None => None
      case Some(offset) =>
        if offset >= |bytes| || bytes[offset] == 0 then None
        else
          match Skip(bytes, offset + 1, bytes[offset])
          case None => None
          case Some(_) => Some(Declaration(bytes[1], bytes[2], bytes[3]))
  }

  /** parse_avcc_bytes accepts exactly the records, and returns what their header declares. */
  method ParseBytes(bytes: seq<byte>) returns (r: Option<Declaration>)
    ensures r == Parse(bytes)
    ensures forall d :: r == Some(d) <==> IsRecord(bytes, d)
  {
    ParseExact(bytes);
    r := ScanRecord(bytes);
  }

  /** The two loops of the parser. */
  method ScanRecord(bytes: seq<byte>) returns (r: Option<Declaration>)
    ensures r == Parse(bytes)
  {
    if |bytes| < 8 || bytes[0] != 1 || bytes[4] % 4 != 3 { return None; }
    var declaration := Declaration(bytes[1], bytes[2], bytes[3]);
    var spsCount := bytes[5] % 32;
    if spsCount == 0 { return None; }
    var offset := 6;
    for i := 0 to spsCount
      invariant 6 <= offset <= |bytes| && Skip(bytes, 6, spsCount) == Skip(bytes, offset, spsCount - i)
    {
      if offset + 1 >= |bytes| { return None; }
      offset := offset + 2 + Word(bytes[offset], bytes[offset + 1]);
      if offset > |bytes| { return None; }
    }
    if offset >= |bytes| { return None; }
    var ppsCount := bytes[offset];
    offset := offset + 1;
    ghost var first := offset;
    if ppsCount == 0 { return None; }
    for i := 0 to ppsCount
      invariant first <= offset <= |bytes| && Skip(bytes, first, ppsCount) == Skip(bytes, offset, ppsCount - i)
    {
      if offset + 1 >= |bytes| { return None; }
      offset := offset + 2 + Word(bytes[offset], bytes[offset + 1]);
      if offset > |bytes| { return None; }
    }
    r := Some(declaration);
  }

  // ---------------------------------------------------------------- exactness

  lemma EntryShape(e: Nal)
    ensures |Entry(e)| == 2 + |e| && Word(Entry(e)[0], Entry(e)[1]) == |e|
  {}

  lemma Regroup(prefix: seq<byte>, head: seq<byte>, rest: seq<byte>, suffix: seq<byte>)
    ensures prefix + (head + rest) + suffix == (prefix + head) + rest + suffix
    ensures prefix + (head + rest) + suffix == prefix + head + (rest + suffix)
  {}

  /** An entry after a prefix is stepped over. */
  lemma SkipStep(prefix: seq<byte>, e: Nal, after: seq<byte>, n: nat)
    requires n > 0
    ensures var bytes := prefix + Entry(e) + after;
      Skip(bytes, |prefix|, n) == Skip(bytes, |prefix| + |Entry(e)|, n - 1)
  {
    var bytes := prefix + Entry(e) + after;
    EntryShape(e);
    assert bytes[|prefix|] == Entry(e)[0] && bytes[|prefix| + 1] == Entry(e)[1];
  }

  /** Entries that are there are skipped. */
  lemma {:induction false} SkipComplete(prefix: seq<byte>, es: seq<Nal>, suffix: seq<byte>)
    ensures Skip(prefix + Entries(es) + suffix, |prefix|, |es|) == Some(|prefix| + |Entries(es)|)
    decreases |es|
  {
    if es != [] {
      var head, rest := Entry(es[0]), Entries(es[1..]);
      Regroup(prefix, head, rest, suffix);
      SkipStep(prefix, es[0], rest + suffix, |es|);
      SkipComplete(prefix + head, es[1..], suffix);
    }
  }

  lemma EntryAt(bytes: seq<byte>, offset: nat)
    requires offset + 1 < |bytes| && offset + 2 + Word(bytes[offset], bytes[offset + 1]) <= |bytes|
    ensures var next := offset + 2 + Word(bytes[offset], bytes[offset + 1]);
      Entry(bytes[offset + 2..next]) == bytes[offset..next]
  {}

  /** What was skipped is a list of entries. */
  lemma {:induction false} SkipSound(bytes: seq<byte>, offset: nat, n: nat) returns (es: seq<Nal>)
    requires offset <= |bytes| && Skip(bytes, offset, n).Some?
    ensures |es| == n && offset <= Skip(bytes, offset, n).value <= |bytes|
    ensures bytes[offset..Skip(bytes, offset, n).value] == Entries(es)
    decreases n
  {
    if n == 0 {
      es := [];
    } else {
      var next := offset + 2 + Word(bytes[offset], bytes[offset + 1]);
      var rest := SkipSound(bytes, next, n - 1);
      EntryAt(bytes, offset);
      es := [bytes[offset + 2..next]] + rest;
      assert es[1..] == rest;
      var end := Skip(bytes, offset, n).value;
      assert bytes[offset..end] == bytes[offset..next] + bytes[next..end];
    }
  }

  lemma ParseComplete(
    bytes: seq<byte>, d: Declaration, header: seq<byte>, sps: seq<Nal>, pps: seq<Nal>, tail: seq<byte>)
    requires Layout(bytes, d, header, sps, pps, tail)
    ensures Parse(bytes) == Some(d)
  {
    var s, p := Entries(sps), Entries(pps);
    EntriesSize(sps);
    assert bytes == header + s + ([|pps|] + p + tail);
    SkipComplete(header, sps, [|pps|] + p + tail);
    SkipComplete(header + s + [|pps|], pps, tail);
    assert bytes[6 + |s|] == |pps|;
    assert forall i :: 0 <= i < 6 ==> bytes[i] == header[i];
  }

  lemma EntriesSize(es: seq<Nal>)
    requires es != []
    ensures |Entries(es)| >= 2
  {}

  lemma Cut(bytes: seq<byte>, a: nat, b: nat, c: nat)
    requires a <= b < c <= |bytes|
    ensures bytes == bytes[..a] + bytes[a..b] + [bytes[b]] + bytes[b + 1..c] + bytes[c..]
  {
    assert bytes == bytes[..a] + bytes[a..];
    assert bytes[a..] == bytes[a..b] + [bytes[b]] + bytes[b + 1..];
    assert bytes[b + 1..] == bytes[b + 1..c] + bytes[c..];
  }

  lemma ParseSound(bytes: seq<byte>)
    requires Parse(bytes).Some?
    ensures IsRecord(bytes, Parse(bytes).value)
  {
    var offset := Skip(bytes, 6, bytes[5] % 32).value;
    var end := Skip(bytes, offset + 1, bytes[offset]).value;
    var sps := SkipSound(bytes, 6, bytes[5] % 32);
    var pps := SkipSound(bytes, offset + 1, bytes[offset]);
    Assemble(bytes, Parse(bytes).value, offset, end, sps, pps);
  }

  lemma Assemble(bytes: seq<byte>, d: Declaration, offset: nat, end: nat, sps: seq<Nal>, pps: seq<Nal>)
    requires 6 <= offset < end <= |bytes| && IsHeader(bytes[..6], d, |sps|) && |sps| > 0 && 0 < |pps| < 256
    requires bytes[6..offset] == Entries(sps) && bytes[offset] == |pps| && bytes[offset + 1..end] == Entries(pps)
    ensures IsRecord(bytes, d)
  {
    Cut(bytes, 6, offset, end);
    assert Layout(bytes, d, bytes[..6], sps, pps, bytes[end..]);
  }

  lemma ParseExact(bytes: seq<byte>)
    ensures forall d :: Parse(bytes) == Some(d) <==> IsRecord(bytes, d)
  {
    forall d ensures Parse(bytes) == Some(d) <==> IsRecord(bytes, d) {
      if IsRecord(bytes, d) {
        var header, sps: seq<Nal>, pps: seq<Nal>, tail :| Layout(bytes, d, header, sps, pps, tail);
        ParseComplete(bytes, d, header, sps, pps, tail);
      } else if Parse(bytes) == Some(d) {
        ParseSound(bytes);
      }
    }
  }
}
