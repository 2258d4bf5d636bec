/**
  The codec MIME string of a stream and its agreement with the avcC record
  (crates/media/src/ffprobe.rs).
*/
module CodecMime {
  import opened Prelude
  import opened Text
  import opened NumericText
  import opened Avcc
  import Hexdump

  predicate IsH264(codec: Option<string>) { codec.Some? && EqIgnoreAsciiCase(codec.value, "h264") }

  predicate IsAvcTag(tag: Option<string>) {
    tag.Some? && (EqIgnoreAsciiCase(tag.value, "avc1") || EqIgnoreAsciiCase(tag.value, "avc3"))
  }

  predicate NotBlank(extradata: Option<string>) { extradata.Some? && Trim(extradata.value) != [] }

  function Record(extradata: Option<string>): Option<Declaration> {
    if extradata.None? then None else Hexdump.Declared(extradata.value)
  }

  /** u8::from_str_radix of two hexadecimal digits. */
  function ByteAt(s: string, i: nat): byte
    requires i + 1 < |s| && IsHexText(s)
  {
    Join(HexValue(s[i]).value, HexValue(s[i + 1]).value)
  }

  function HexByte(b: byte): string { [HexDigit(High(b)), HexDigit(Low(b))] }

  function Spelled(d: Declaration): string { HexByte(d.profile) + HexByte(d.compatibility) + HexByte(d.level) }

  /** What follows the first point. */
  function Suffix(mime: string): Option<string> {
    var n := IndexOf(mime, '.');
    if n < |mime| then Some(mime[n + 1..]) else None
  }

  function Derived(tag: string, d: Declaration): string { tag + ("." + Spelled(d)) }

  /** The reported string stands when its suffix repeats the record. */
  function Confirmed(reported: string, d: Declaration): Option<string> {
    match Suffix(reported)
    case None => None
    case Some(suffix) =>
      if |suffix| != 6 || !IsHexText(suffix) then None
      else if ByteAt(suffix, 0) == d.profile && ByteAt(suffix, 2) == d.compatibility && ByteAt(suffix, 4) == d.level
      then Some(reported) else None
  }

  /** codec_mime_from_metadata. */
  function FromMetadata(codec: Option<string>, tag: Option<string>, reported: Option<string>, extradata: Option<string>)
    : Option<string>
  {
    var avcc := Record(extradata);
    if IsH264(codec) && IsAvcTag(tag) && NotBlank(extradata) && avcc.None? then None
    else
      match (reported, avcc)
      case (Some(r), Some(d)) => Confirmed(r, d)
      case (Some(r), None) => Some(r)
      case (None, Some(d)) => if tag.None? then None else Some(Derived(tag.value, d))
      case (None, None) => None
  }

  // ---------------------------------------------------------------- agreement

  ghost function Bytes(d: Declaration): seq<byte> { [d.profile, d.compatibility, d.level] }

  /** The string declares, in hexadecimal after its first point, exactly the three bytes of the record. */
  ghost predicate Declares(mime: string, d: Declaration) {
    Suffix(mime).Some? && IsHexOf(Suffix(mime).value, Bytes(d))
  }

  lemma ByteAtLaws(s: string, i: nat)
    requires i + 1 < |s| && IsHexText(s)
    ensures HexValue(s[i]) == Some(High(ByteAt(s, i))) && HexValue(s[i + 1]) == Some(Low(ByteAt(s, i)))
  {
    JoinLaws(HexValue(s[i]).value, HexValue(s[i + 1]).value);
  }

  lemma ByteIs(s: string, i: nat, b: byte)
    requires i + 1 < |s| && IsHexText(s)
    ensures ByteAt(s, i) == b <==> HexValue(s[i]) == Some(High(b)) && HexValue(s[i + 1]) == Some(Low(b))
  {
    ByteAtLaws(s, i);
    SplitLaw(b);
    SplitLaw(ByteAt(s, i));
  }

  lemma SixDigits(s: string, d: Declaration)
    requires |s| == 6
    ensures IsHexOf(s, Bytes(d)) <==>
      PairAt(s, Bytes(d), 0) && PairAt(s, Bytes(d), 1) && PairAt(s, Bytes(d), 2)
  {}

  lemma SpelledIsHexText(s: string, d: Declaration)
    requires IsHexOf(s, Bytes(d))
    ensures |s| == 6 && IsHexText(s)
  {
    forall k | 0 <= k < |s| ensures HexValue(s[k]).Some? { DigitOf(s, Bytes(d), k); }
  }

  /** A reported string is confirmed exactly when it declares the record. */
  lemma ConfirmedExactly(reported: string, d: Declaration)
    ensures Confirmed(reported, d) == if Declares(reported, d) then Some(reported) else None
  {
    var suffix := Suffix(reported);
    if suffix.Some? {
      var s := suffix.value;
      if |s| == 6 && IsHexText(s) {
        ByteIs(s, 0, d.profile);
        ByteIs(s, 2, d.compatibility);
        ByteIs(s, 4, d.level);
        SixDigits(s, d);
      } else if IsHexOf(s, Bytes(d)) {
        SpelledIsHexText(s, d);
      }
    }
  }

  lemma SpelledSpells(d: Declaration)
    ensures IsHexOf(Spelled(d), Bytes(d)) && '.' !in Spelled(d)
  {
    DigitLaws(High(d.profile));
    DigitLaws(Low(d.profile));
    DigitLaws(High(d.compatibility));
    DigitLaws(Low(d.compatibility));
    DigitLaws(High(d.level));
    DigitLaws(Low(d.level));
    SixDigits(Spelled(d), d);
  }

  /** A derived string declares its record exactly when the tag has no point of its own. */
  lemma DerivedDeclares(tag: string, d: Declaration)
    ensures Declares(Derived(tag, d), d) <==> '.' !in tag
  {
    var mime := Derived(tag, d);
    SpelledSpells(d);
    if '.' in tag {
      var n := IndexOf(mime, '.');
      var k :| 0 <= k < |tag| && tag[k] == '.';
      assert mime[k] == '.';
      assert n <= k;
    } else {
      Hexdump.IndexOfAt(mime, '.', |tag|);
      assert mime[|tag| + 1..] == Spelled(d);
    }
  }

  lemma AvcTagHasNoPoint(tag: Option<string>)
    requires IsAvcTag(tag)
    ensures '.' !in tag.value
  {
    var lower := ToAsciiLowercase(tag.value);
    assert lower == "avc1" || lower == "avc3";
    assert forall i :: 0 <= i < |lower| ==> lower[i] != '.';
    assert forall i :: 0 <= i < |tag.value| ==> tag.value[i] == '.' ==> lower[i] == '.';
  }

  /**
    For an H.264 avc1 or avc3 stream with extradata, a string is returned exactly when the extradata
    holds a record, and then the string declares that record.
  */
  lemma DeclarationIsConsistent(
    codec: Option<string>, tag: Option<string>, reported: Option<string>, extradata: Option<string>)
    requires IsH264(codec) && IsAvcTag(tag) && NotBlank(extradata)
    ensures var mime, record := FromMetadata(codec, tag, reported, extradata), Record(extradata);
      && (mime.Some? ==> record.Some? && Declares(mime.value, record.value))
      && (mime.Some? <==> record.Some? && (reported.Some? ==> Declares(reported.value, record.value)))
  {
    var record := Record(extradata);
    if record.Some? {
      AvcTagHasNoPoint(tag);
      DerivedDeclares(tag.value, record.value);
      if reported.Some? { ConfirmedExactly(reported.value, record.value); }
    }
  }

  /** A derived string fed back as the reported one is returned unchanged, unless the tag has a point. */
  lemma DerivedIsStable(codec: Option<string>, tag: Option<string>, extradata: Option<string>)
    requires FromMetadata(codec, tag, None, extradata).Some?
    ensures var mime := FromMetadata(codec, tag, None, extradata).value;
      && tag.Some?
      && FromMetadata(codec, tag, Some(mime), extradata) == if '.' in tag.value then None else Some(mime)
  {
    var record := Record(extradata).value;
    var mime := Derived(tag.value, record);
    DerivedDeclares(tag.value, record);
    ConfirmedExactly(mime, record);
  }

  /** Blank extradata takes nothing away. */
  lemma BlankKeepsReported(codec: Option<string>, tag: Option<string>, reported: Option<string>, extradata: string)
    requires Trim(extradata) == []
    ensures FromMetadata(codec, tag, reported, Some(extradata)) == reported
  {
    TrimEmpty(extradata);
    assert !IsWhitespace(':');
    Hexdump.NoColonNoBytes(extradata);
  }

  // ---------------------------------------------------------------- the targeted second probe

  datatype Stream = Stream(index: nat, isVideo: bool, codec: Option<string>, tag: Option<string>, mime: Option<string>)

  datatype RawStream = RawStream(index: Option<nat>, extradata: Option<string>)

  /** needs_targeted_avcc_probe. */
  predicate NeedsProbe(s: Stream) { s.isVideo && s.mime.None? && IsH264(s.codec) && IsAvcTag(s.tag) }

  /** The extradata of the first raw stream with this index. */
  function Extradata(raw: seq<RawStream>, index: nat): Option<string> {
    if raw == [] then None
    else if raw[0].index == Some(index) then raw[0].extradata
    else Extradata(raw[1..], index)
  }

  function Merged(s: Stream, raw: seq<RawStream>): Stream {
    if !NeedsProbe(s) || Extradata(raw, s.index).None? then s
    else s.(mime := FromMetadata(s.codec, s.tag, None, Extradata(raw, s.index)))
  }

  /** The body of the loop below, for one stream. */
  method MergeInPlace(streams: array<Stream>, i: nat, raw: seq<RawStream>, ghost merged: Stream)
    requires i < streams.Length && merged == Merged(streams[i], raw)
    modifies streams
    ensures streams[..] == old(streams[..])[i := merged]
  {
    var s := streams[i];
    if NeedsProbe(s) {
      var extradata := Extradata(raw, s.index);
      if extradata.Some? {
        streams[i] := s.(mime := FromMetadata(s.codec, s.tag, None, extradata));
      }
    }
  }

  ghost function MergedAll(streams: seq<Stream>, raw: seq<RawStream>): seq<Stream> {
    seq(|streams|, i requires 0 <= i < |streams| => Merged(streams[i], raw))
  }

  lemma MergedAt(streams: seq<Stream>, raw: seq<RawStream>, i: nat)
    requires i < |streams|
    ensures MergedAll(streams, raw)[i] == Merged(streams[i], raw)
  {}

  /** A prefix of the goal grows by one element. */
  lemma Spliced<T>(goal: seq<T>, before: seq<T>, i: nat)
    requires i < |goal| == |before|
    ensures var now := goal[..i] + before[i..];
      now[i] == before[i] && now[i := goal[i]] == goal[..i + 1] + before[i + 1..]
  {}

  /** The first `i` streams have been merged, and then one more. */
  method MergeNext(streams: array<Stream>, i: nat, raw: seq<RawStream>, ghost before: seq<Stream>)
    requires i < streams.Length == |before| && streams[..] == MergedAll(before, raw)[..i] + before[i..]
    modifies streams
    ensures streams[..] == MergedAll(before, raw)[..i + 1] + before[i + 1..]
  {
    ghost var goal := MergedAll(before, raw);
    Spliced(goal, before, i);
    MergedAt(before, raw, i);
    assert streams[i] == streams[..][i];
    MergeInPlace(streams, i, raw, goal[i]);
  }

  /** merge_targeted_avcc edits the streams in place, each by itself. */
  method MergeTargeted(streams: array<Stream>, raw: seq<RawStream>)
    modifies streams
    ensures streams[..] == MergedAll(old(streams[..]), raw)
  {
    ghost var before := streams[..];
    ghost var goal := MergedAll(before, raw);
    for i := 0 to streams.Length
      invariant streams[..] == goal[..i] + before[i..]
    {
      MergeNext(streams, i, raw, before);
    }
  }

  /** A merge fills in only what its probe declares, and merging again changes nothing. */
  lemma MergeIsSound(s: Stream, raw: seq<RawStream>)
    ensures Merged(Merged(s, raw), raw) == Merged(s, raw)
    ensures s.mime.Some? ==> Merged(s, raw) == s
    ensures Merged(s, raw).mime.Some? && s.mime.None? ==>
      var record := Record(Extradata(raw, s.index));
      record.Some? && Declares(Merged(s, raw).mime.value, record.value)
  {
    var e := Extradata(raw, s.index);
    if NeedsProbe(s) && e.Some? && Record(e).Some? {
      AvcTagHasNoPoint(s.tag);
      DerivedDeclares(s.tag.value, Record(e).value);
    }
  }

  // ---------------------------------------------------------------- which string, for which stream

  ghost predicate Spells(text: Option<string>, name: string) { text.Some? && ToAsciiLowercase(text.value) == name }

  /** An H.264 stream whose parameter sets are in its avcC record. */
  ghost predicate IsAvcStream(codec: Option<string>, tag: Option<string>) {
    Spells(codec, "h264") && (Spells(tag, "avc1") || Spells(tag, "avc3"))
  }

  /** The tag, a point, and the three bytes of the record in lower-case hexadecimal. */
  ghost predicate DerivedFrom(mime: string, tag: string, d: Declaration) {
    exists digits :: mime == tag + ("." + digits) && IsHexOf(digits, Bytes(d)) && ToAsciiLowercase(digits) == digits
  }

  lemma LowerConstants()
    ensures ToAsciiLowercase("h264") == "h264" && ToAsciiLowercase("avc1") == "avc1"
    ensures ToAsciiLowercase("avc3") == "avc3"
  {}

  lemma AvcStreamTest(codec: Option<string>, tag: Option<string>)
    ensures IsH264(codec) && IsAvcTag(tag) <==> IsAvcStream(codec, tag)
  {
    LowerConstants();
  }

  lemma DerivedIsDerived(tag: string, d: Declaration)
    ensures DerivedFrom(Derived(tag, d), tag, d)
  {
    var digits := Spelled(d);
    SpelledSpells(d);
    DigitsAreLower(d);
    assert Derived(tag, d) == tag + ("." + digits);
  }

  lemma DigitsAreLower(d: Declaration)
    ensures ToAsciiLowercase(Spelled(d)) == Spelled(d)
  {
    DigitLaws(High(d.profile));
    DigitLaws(Low(d.profile));
    DigitLaws(High(d.compatibility));
    DigitLaws(Low(d.compatibility));
    DigitLaws(High(d.level));
    DigitLaws(Low(d.level));
  }

  /**
    Which string is returned, for every stream. A reported string is returned as it is or not at all: not if
    a record contradicts it, and not if an avc1 or avc3 stream has extradata that holds no record. Without
    a reported string one is derived from the tag and the record, if both are there.
  */
  lemma MimeExactly(codec: Option<string>, tag: Option<string>, reported: Option<string>, extradata: Option<string>)
    ensures var mime, record := FromMetadata(codec, tag, reported, extradata), Record(extradata);
      if reported.Some? then
        && (mime.Some? ==> mime == reported)
        && (mime.Some? <==>
              if record.Some? then Declares(reported.value, record.value)
              else !IsAvcStream(codec, tag) || extradata.None? || TrimsTo(extradata.value, ""))
      else
        && (mime.Some? <==> record.Some? && tag.Some?)
        && (mime.Some? ==> DerivedFrom(mime.value, tag.value, record.value))
  {
    AvcStreamTest(codec, tag);
    if extradata.Some? { TrimExactly(extradata.value, ""); }
    var record := Record(extradata);
    if record.Some? {
      if reported.Some? { ConfirmedExactly(reported.value, record.value); }
      if tag.Some? { DerivedIsDerived(tag.value, record.value); }
    }
  }

  /** The extradata that the second probe reports for a stream is that of the first entry with its index. */
  lemma {:induction false} ExtradataExactly(raw: seq<RawStream>, index: nat, text: string)
    ensures Extradata(raw, index) == Some(text) <==>
      exists i :: 0 <= i < |raw| && raw[i] == RawStream(Some(index), Some(text))
                  && forall j :: 0 <= j < i ==> raw[j].index != Some(index)
  {
    if raw != [] {
      ExtradataExactly(raw[1..], index, text);
      if raw[0].index != Some(index) {
        if Extradata(raw, index) == Some(text) {
          var i :| 0 <= i < |raw[1..]| && raw[1..][i] == RawStream(Some(index), Some(text))
                   && forall j :: 0 <= j < i ==> raw[1..][j].index != Some(index);
          assert raw[i + 1] == RawStream(Some(index), Some(text));
          assert forall j :: 1 <= j < i + 1 ==> raw[j] == raw[1..][j - 1];
        }
        if i :| 0 <= i < |raw| && raw[i] == RawStream(Some(index), Some(text))
                && forall j :: 0 <= j < i ==> raw[j].index != Some(index) {
          assert raw[1..][i - 1] == RawStream(Some(index), Some(text));
          assert forall j :: 0 <= j < i - 1 ==> raw[1..][j] == raw[j + 1];
        }
      } else if raw[0].extradata == Some(text) {
        assert raw[0] == RawStream(Some(index), Some(text));
      }
    }
  }

  /** A merge changes nothing but a missing string, and fills that in exactly when an avc1 or avc3 video stream
      gets extradata that holds a record. */
  lemma MergeExactly(s: Stream, raw: seq<RawStream>)
    ensures var t, record := Merged(s, raw), Record(Extradata(raw, s.index));
      && t.(mime := s.mime) == s
      && (t != s <==> s.isVideo && s.mime.None? && IsAvcStream(s.codec, s.tag) && record.Some?)
      && (t != s ==> t.mime.Some? && DerivedFrom(t.mime.value, s.tag.value, record.value))
  {
    AvcStreamTest(s.codec, s.tag);
    var e := Extradata(raw, s.index);
    MimeExactly(s.codec, s.tag, None, e);
  }
}
