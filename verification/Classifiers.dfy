/**
  The two classifiers of a probed file: one over the probe itself (apps/worker/src/normalization.rs),
  one over its stored JSON (crates/inbox/src/lib.rs). The probe is serialized as
  crates/media/src/ffprobe.rs derives it.
*/
module Classifiers {
  import opened Prelude
  import opened Text
  import opened Serde

  datatype MediaKind = Animation | Image | Video | Audio

  datatype StreamKind =
    | VideoStream | AudioStream | SubtitleStream | DataStream | AttachmentStream | OtherStream(name: string)

  datatype FrameRate = FrameRate(numerator: nat, denominator: nat)

  datatype MediaStream = MediaStream(
    index: nat, kind: StreamKind, codec: Option<string>, attachedPicture: bool,
    codecTag: Option<string>, codecMime: Option<string>, level: Option<nat>, profile: Option<string>,
    pixelFormat: Option<string>, width: Option<nat>, height: Option<nat>, displayAspectRatio: Option<string>,
    frameRate: Option<FrameRate>, rotationDegrees: Option<int>, sampleRateHz: Option<nat>,
    channels: Option<nat>, bitRate: Option<nat>)

  datatype MediaProbe = MediaProbe(
    containerFormat: Option<string>, durationMs: Option<nat>, sizeBytes: nat, bitRate: Option<nat>,
    streams: seq<MediaStream>)

  // ---------------------------------------------------------------- the shared tests

  const IMAGE_FORMATS: seq<string> := ["image2", "png", "jpeg", "jpg", "webp", "avif", "mjpeg"]

  function LowerContainer(container: Option<string>): Option<string> {
    if container.None? then None else Some(ToAsciiLowercase(container.value))
  }

  /** Over the lower-case container and the codecs of the playable video streams. */
  predicate IsGif(container: Option<string>, codecs: seq<string>) {
    || (container.Some? && Contains(container.value, "gif"))
    || exists i :: 0 <= i < |codecs| && Contains(ToAsciiLowercase(codecs[i]), "gif")
  }

  predicate IsImageContainer(container: Option<string>) {
    container.Some? && exists f :: 0 <= f < |IMAGE_FORMATS| && Contains(container.value, IMAGE_FORMATS[f])
  }

  predicate IsImageCodec(container: Option<string>, codecs: seq<string>) {
    || (exists i :: 0 <= i < |codecs| && (EqIgnoreAsciiCase(codecs[i], "png") || EqIgnoreAsciiCase(codecs[i], "webp")))
    || (container.None? && exists i :: 0 <= i < |codecs| && EqIgnoreAsciiCase(codecs[i], "mjpeg"))
  }

  // ---------------------------------------------------------------- over the probe

  predicate IsPlayable(s: MediaStream) { s.kind.VideoStream? && !s.attachedPicture }

  function VideoStreams(streams: seq<MediaStream>): seq<MediaStream> {
    if streams == [] then []
    else (if IsPlayable(streams[0]) then [streams[0]] else []) + VideoStreams(streams[1..])
  }

  function Codecs(streams: seq<MediaStream>): seq<string> {
    if streams == [] then []
    else (if streams[0].codec.Some? then [streams[0].codec.value] else []) + Codecs(streams[1..])
  }

  /** probe_media_kind. */
  function ProbeKind(probe: MediaProbe): Option<MediaKind> {
    var container := LowerContainer(probe.containerFormat);
    var videos := VideoStreams(probe.streams);
    var codecs := Codecs(videos);
    if IsGif(container, codecs) then Some(Animation)
    else if IsImageContainer(container) || IsImageCodec(container, codecs) then Some(Image)
    else if videos != [] then Some(Video)
    else if exists i :: 0 <= i < |probe.streams| && probe.streams[i].kind.AudioStream? then Some(Audio)
    else None
  }

  // ---------------------------------------------------------------- over JSON

  /** Value::get. */
  function Get(j: Json, key: string): Option<Json> {
    if j.Obj? && key in j.fields then Some(j.fields[key]) else None
  }

  function GetStr(j: Json, key: string): Option<string> {
    var v := Get(j, key);
    if v.Some? && v.value.Str? then Some(v.value.s) else None
  }

  function GetBool(j: Json, key: string): Option<bool> {
    var v := Get(j, key);
    if v.Some? && v.value.Bool? then Some(v.value.b) else None
  }

  function GetArr(j: Json, key: string): Option<seq<Json>> {
    var v := Get(j, key);
    if v.Some? && v.value.Arr? then Some(v.value.items) else None
  }

  /** is_playable_video_stream. */
  predicate IsPlayableJson(j: Json) {
    GetStr(j, "kind") == Some("video") && GetBool(j, "attached_picture") != Some(true)
  }

  predicate IsAudioJson(j: Json) { GetStr(j, "kind") == Some("audio") }

  function PlayableCodecs(streams: seq<Json>): seq<string> {
    if streams == [] then []
    else
      var codec := GetStr(streams[0], "codec");
      (if IsPlayableJson(streams[0]) && codec.Some? then [codec.value] else []) + PlayableCodecs(streams[1..])
  }

  /** IngestProbe::media_kind. */
  function StoredKind(j: Json): Option<MediaKind> {
    var streams := GetArr(j, "streams");
    var codecs := if streams.Some? then PlayableCodecs(streams.value) else [];
    var container := LowerContainer(GetStr(j, "container_format"));
    if IsGif(container, codecs) then Some(Animation)
    else if IsImageContainer(container) || IsImageCodec(container, codecs) then Some(Image)
    else if streams.Some? && exists i :: 0 <= i < |streams.value| && IsPlayableJson(streams.value[i]) then Some(Video)
    else if streams.Some? && exists i :: 0 <= i < |streams.value| && IsAudioJson(streams.value[i]) then Some(Audio)
    else None
  }

  // ---------------------------------------------------------------- serialization

  function TextJson(v: Option<string>): Json { if v.None? then Null else Str(v.value) }

  function IntJson(v: Option<int>): Json { if v.None? then Null else Int(v.value) }

  function RateJson(v: Option<FrameRate>): Json {
    if v.None? then Null else Obj(map["numerator" := Int(v.value.numerator), "denominator" := Int(v.value.denominator)])
  }

  /** Unit variants are strings; the one variant with data is an object. */
  function KindJson(k: StreamKind): Json {
    match k
    case VideoStream => Str("video")
    case AudioStream => Str("audio")
    case SubtitleStream => Str("subtitle")
    case DataStream => Str("data")
    case AttachmentStream => Str("attachment")
    case OtherStream(name) => Obj(map["other" := Str(name)])
  }

  function StreamJson(s: MediaStream): Json {
    Obj(map[
          "index" := Int(s.index), "codec_tag" := TextJson(s.codecTag), "codec_mime" := TextJson(s.codecMime),
          "level" := IntJson(s.level), "profile" := TextJson(s.profile), "pixel_format" := TextJson(s.pixelFormat),
          "width" := IntJson(s.width), "height" := IntJson(s.height),
          "display_aspect_ratio" := TextJson(s.displayAspectRatio), "frame_rate" := RateJson(s.frameRate),
          "rotation_degrees" := IntJson(s.rotationDegrees), "sample_rate_hz" := IntJson(s.sampleRateHz),
          "channels" := IntJson(s.channels), "bit_rate" := IntJson(s.bitRate)]
        + map["kind" := KindJson(s.kind), "codec" := TextJson(s.codec), "attached_picture" := Bool(s.attachedPicture)])
  }

  function StreamsJson(streams: seq<MediaStream>): (r: seq<Json>)
    ensures |r| == |streams|
  {
    if streams == [] then [] else [StreamJson(streams[0])] + StreamsJson(streams[1..])
  }

  function ProbeJson(p: MediaProbe): Json {
    Obj(map["duration_ms" := IntJson(p.durationMs), "size_bytes" := Int(p.sizeBytes), "bit_rate" := IntJson(p.bitRate)]
        + map["container_format" := TextJson(p.containerFormat), "streams" := Arr(StreamsJson(p.streams))])
  }

  // ---------------------------------------------------------------- agreement

  /**
    A stored stream stands for `s`: the fields the classifier reads agree, where a record from before
    covers were marked may lack the mark, which then reads as false.
  */
  ghost predicate Represents(j: Json, s: MediaStream) {
    && Get(j, "kind") == Some(KindJson(s.kind))
    && Get(j, "codec") == Some(TextJson(s.codec))
    && (|| Get(j, "attached_picture") == Some(Bool(s.attachedPicture))
        || (Get(j, "attached_picture").None? && !s.attachedPicture))
  }

  ghost predicate RepresentsAll(js: seq<Json>, streams: seq<MediaStream>) {
    |js| == |streams| && forall i :: 0 <= i < |js| ==> Represents(js[i], streams[i])
  }

  ghost predicate RepresentsProbe(j: Json, p: MediaProbe) {
    && Get(j, "container_format") == Some(TextJson(p.containerFormat))
    && GetArr(j, "streams").Some? && RepresentsAll(GetArr(j, "streams").value, p.streams)
  }

  lemma KindNames(k: StreamKind)
    ensures KindJson(k) == Str("video") <==> k.VideoStream?
    ensures KindJson(k) == Str("audio") <==> k.AudioStream?
  {
    assert "video"[0] != "audio"[0] && "video"[0] != "data"[0] && "audio"[0] != "data"[0];
    assert |"subtitle"| == 8 && |"attachment"| == 10;
  }

  lemma StreamAgrees(j: Json, s: MediaStream)
    requires Represents(j, s)
    ensures IsPlayableJson(j) <==> IsPlayable(s)
    ensures IsAudioJson(j) <==> s.kind.AudioStream?
    ensures GetStr(j, "codec") == s.codec
  {
    KindNames(s.kind);
  }

  lemma {:induction false} CodecsAgree(js: seq<Json>, streams: seq<MediaStream>)
    requires RepresentsAll(js, streams)
    ensures PlayableCodecs(js) == Codecs(VideoStreams(streams))
  {
    if js != [] {
      StreamAgrees(js[0], streams[0]);
      CodecsAgree(js[1..], streams[1..]);
      CodecsCons(streams);
    }
  }

  lemma CodecsCons(streams: seq<MediaStream>)
    requires streams != []
    ensures Codecs(VideoStreams(streams)) ==
      (if IsPlayable(streams[0]) && streams[0].codec.Some? then [streams[0].codec.value] else [])
      + Codecs(VideoStreams(streams[1..]))
  {
    var rest := VideoStreams(streams[1..]);
    if IsPlayable(streams[0]) {
      assert ([streams[0]] + rest)[1..] == rest;
    } else {
      assert [] + rest == rest && [] + Codecs(rest) == Codecs(rest);
    }
  }

  lemma {:induction false} AnyPlayable(streams: seq<MediaStream>)
    ensures VideoStreams(streams) != [] <==> exists i :: 0 <= i < |streams| && IsPlayable(streams[i])
  {
    if streams != [] {
      AnyPlayable(streams[1..]);
      assert forall i :: 1 <= i < |streams| ==> streams[i] == streams[1..][i - 1];
      if VideoStreams(streams[1..]) != [] {
        var i :| 0 <= i < |streams[1..]| && IsPlayable(streams[1..][i]);
        assert IsPlayable(streams[i + 1]);
      }
    }
  }

  lemma VideosAgree(js: seq<Json>, streams: seq<MediaStream>)
    requires RepresentsAll(js, streams)
    ensures VideoStreams(streams) != [] <==> exists i :: 0 <= i < |js| && IsPlayableJson(js[i])
  {
    AnyPlayable(streams);
    forall i | 0 <= i < |js| ensures IsPlayableJson(js[i]) <==> IsPlayable(streams[i]) {
      StreamAgrees(js[i], streams[i]);
    }
  }

  lemma AudioAgrees(js: seq<Json>, streams: seq<MediaStream>)
    requires RepresentsAll(js, streams)
    ensures (exists i :: 0 <= i < |js| && IsAudioJson(js[i]))
       <==> (exists i :: 0 <= i < |streams| && streams[i].kind.AudioStream?)
  {
    forall i | 0 <= i < |js| ensures IsAudioJson(js[i]) <==> streams[i].kind.AudioStream? {
      StreamAgrees(js[i], streams[i]);
    }
  }

  /** Whatever stands for a probe is classified as the probe is. */
  lemma RepresentationAgrees(j: Json, p: MediaProbe)
    requires RepresentsProbe(j, p)
    ensures StoredKind(j) == ProbeKind(p)
  {
    var js := GetArr(j, "streams").value;
    CodecsAgree(js, p.streams);
    VideosAgree(js, p.streams);
    AudioAgrees(js, p.streams);
    assert GetStr(j, "container_format") == p.containerFormat;
  }

  lemma StreamIsRepresented(s: MediaStream)
    ensures Represents(StreamJson(s), s)
  {
    assert |"kind"| == 4 && |"codec"| == 5 && |"attached_picture"| == 16;
  }

  lemma {:induction false} StreamsAreRepresented(streams: seq<MediaStream>)
    ensures RepresentsAll(StreamsJson(streams), streams)
  {
    if streams != [] {
      StreamIsRepresented(streams[0]);
      StreamsAreRepresented(streams[1..]);
    }
  }

  /** Classifying a probe directly and classifying its serialization agree. */
  lemma ClassifiersAgree(p: MediaProbe)
    ensures StoredKind(ProbeJson(p)) == ProbeKind(p)
  {
    assert |"container_format"| == 16 && |"streams"| == 7;
    StreamsAreRepresented(p.streams);
    RepresentationAgrees(ProbeJson(p), p);
  }

  // ---------------------------------------------------------------- what the kinds mean

  /** The text, if there is one, contains the lower-case part in any case. */
  ghost predicate Mentions(text: Option<string>, part: string) {
    text.Some? && Contains(ToAsciiLowercase(text.value), part)
  }

  ghost predicate Spells(text: Option<string>, name: string) { text.Some? && ToAsciiLowercase(text.value) == name }

  /** The video streams that are no cover, by their codec. */
  ghost predicate Plays(s: MediaStream, codec: Option<string>) {
    s.kind == VideoStream && !s.attachedPicture && s.codec == codec
  }

  ghost predicate Played(streams: seq<MediaStream>, codec: Option<string>) {
    exists i :: 0 <= i < |streams| && Plays(streams[i], codec)
  }

  /** The same over stored streams; a mark that is missing or no boolean does not make a cover. */
  ghost predicate PlaysJson(j: Json, codec: Option<string>) {
    && j.Obj? && "kind" in j.fields && j.fields["kind"] == Str("video")
    && ("attached_picture" in j.fields ==> j.fields["attached_picture"] != Bool(true))
    && codec == (if "codec" in j.fields && j.fields["codec"].Str? then Some(j.fields["codec"].s) else None)
  }

  ghost predicate PlayedJson(streams: seq<Json>, codec: Option<string>) {
    exists i :: 0 <= i < |streams| && PlaysJson(streams[i], codec)
  }

  /** The four kinds and none, by the container, the codecs that play and whether there is sound: a GIF
      anywhere makes an animation; an image container, or a codec only images have, an image; then any video
      stream a video; and then any audio stream audio. */
  ghost predicate KindIs(
    kind: Option<MediaKind>, container: Option<string>, plays: iset<Option<string>>, sounds: bool)
  {
    var gif := Mentions(container, "gif") || exists c :: c in plays && Mentions(c, "gif");
    var image :=
      || Mentions(container, "image2") || Mentions(container, "png") || Mentions(container, "jpeg")
      || Mentions(container, "jpg") || Mentions(container, "webp") || Mentions(container, "avif")
      || Mentions(container, "mjpeg")
      || (exists c :: c in plays && (Spells(c, "png") || Spells(c, "webp")))
      || (container.None? && exists c :: c in plays && Spells(c, "mjpeg"));
    && (kind == Some(Animation) <==> gif)
    && (kind == Some(Image) <==> !gif && image)
    && (kind == Some(Video) <==> !gif && !image && exists c :: c in plays)
    && (kind == Some(Audio) <==> !gif && !image && !(exists c :: c in plays) && sounds)
    && (kind == None <==> !gif && !image && !(exists c :: c in plays) && !sounds)
  }

  /** The list of codecs that the tests above look at holds the codecs that play. */
  ghost predicate ListsCodecs(codecs: seq<string>, plays: iset<Option<string>>) {
    forall c :: c in codecs <==> Some(c) in plays
  }

  lemma GifTest(container: Option<string>, codecs: seq<string>, plays: iset<Option<string>>)
    requires ListsCodecs(codecs, plays)
    ensures IsGif(LowerContainer(container), codecs) <==>
      Mentions(container, "gif") || exists c :: c in plays && Mentions(c, "gif")
  {
    if c :| c in plays && Mentions(c, "gif") {
      assert c.value in codecs;
    }
    if i :| 0 <= i < |codecs| && Contains(ToAsciiLowercase(codecs[i]), "gif") {
      assert codecs[i] in codecs && Some(codecs[i]) in plays && Mentions(Some(codecs[i]), "gif");
    }
  }

  lemma ContainerTest(container: Option<string>)
    ensures IsImageContainer(LowerContainer(container)) <==>
      || Mentions(container, "image2") || Mentions(container, "png") || Mentions(container, "jpeg")
      || Mentions(container, "jpg") || Mentions(container, "webp") || Mentions(container, "avif")
      || Mentions(container, "mjpeg")
  {
    if container.Some? {
      var text := ToAsciiLowercase(container.value);
      assert forall f :: 0 <= f < |IMAGE_FORMATS| ==>
        (Contains(text, IMAGE_FORMATS[f]) <==> Mentions(container, IMAGE_FORMATS[f]));
      assert IMAGE_FORMATS[0] == "image2" && IMAGE_FORMATS[1] == "png" && IMAGE_FORMATS[2] == "jpeg";
      assert IMAGE_FORMATS[3] == "jpg" && IMAGE_FORMATS[4] == "webp" && IMAGE_FORMATS[5] == "avif";
      assert IMAGE_FORMATS[6] == "mjpeg";
    }
  }

  lemma LowerNames()
    ensures ToAsciiLowercase("png") == "png" && ToAsciiLowercase("webp") == "webp"
    ensures ToAsciiLowercase("mjpeg") == "mjpeg"
  {}

  lemma CodecTest(container: Option<string>, codecs: seq<string>, plays: iset<Option<string>>)
    requires ListsCodecs(codecs, plays)
    ensures IsImageCodec(LowerContainer(container), codecs) <==>
      || (exists c :: c in plays && (Spells(c, "png") || Spells(c, "webp")))
      || (container.None? && exists c :: c in plays && Spells(c, "mjpeg"))
  {
    LowerNames();
    forall i | 0 <= i < |codecs| ensures Some(codecs[i]) in plays { assert codecs[i] in codecs; }
    forall c | c in plays && c.Some? ensures exists i :: 0 <= i < |codecs| && codecs[i] == c.value {
      assert c.value in codecs;
    }
    assert forall i, name :: 0 <= i < |codecs| && name in {"png", "webp", "mjpeg"} ==>
      (EqIgnoreAsciiCase(codecs[i], name) <==> Spells(Some(codecs[i]), name));
  }

  /** The tests in their order give the kind. */
  lemma KindFromTests(
    kind: Option<MediaKind>, container: Option<string>, codecs: seq<string>, plays: iset<Option<string>>,
    videos: bool, sounds: bool)
    requires ListsCodecs(codecs, plays) && (videos <==> exists c :: c in plays)
    requires kind ==
      if IsGif(LowerContainer(container), codecs) then Some(Animation)
      else if IsImageContainer(LowerContainer(container)) || IsImageCodec(LowerContainer(container), codecs)
      then Some(Image)
      else if videos then Some(Video) else if sounds then Some(Audio) else None
    ensures KindIs(kind, container, plays, sounds)
  {
    GifTest(container, codecs, plays);
    ContainerTest(container);
    CodecTest(container, codecs, plays);
  }

  lemma {:induction false} PlayedTail(streams: seq<MediaStream>, codec: Option<string>)
    requires streams != []
    ensures Played(streams, codec) <==> Plays(streams[0], codec) || Played(streams[1..], codec)
  {
    if Played(streams[1..], codec) {
      var i :| 0 <= i < |streams[1..]| && Plays(streams[1..][i], codec);
      assert Plays(streams[i + 1], codec);
    }
    if Played(streams, codec) && !Plays(streams[0], codec) {
      var i :| 0 <= i < |streams| && Plays(streams[i], codec);
      assert Plays(streams[1..][i - 1], codec);
    }
  }

  lemma {:induction false} CodecsArePlayed(streams: seq<MediaStream>, c: string)
    ensures c in Codecs(VideoStreams(streams)) <==> Played(streams, Some(c))
  {
    if streams != [] {
      CodecsCons(streams);
      PlayedTail(streams, Some(c));
      CodecsArePlayed(streams[1..], c);
    }
  }

  /** The codecs that play, none standing for a stream without one. */
  ghost function PlayedSet(streams: seq<MediaStream>): iset<Option<string>> { iset c | Played(streams, c) }

  lemma VideosArePlayed(streams: seq<MediaStream>)
    ensures VideoStreams(streams) != [] <==> exists c :: c in PlayedSet(streams)
  {
    AnyPlayable(streams);
    if i :| 0 <= i < |streams| && IsPlayable(streams[i]) {
      assert Plays(streams[i], streams[i].codec);
      assert streams[i].codec in PlayedSet(streams);
    }
    if c :| c in PlayedSet(streams) {
      var i :| 0 <= i < |streams| && Plays(streams[i], c);
      assert IsPlayable(streams[i]);
    }
  }

  /** What the kind of a probe means. */
  lemma ProbeKindMeaning(p: MediaProbe)
    ensures KindIs(ProbeKind(p), p.containerFormat, PlayedSet(p.streams),
                   exists i :: 0 <= i < |p.streams| && p.streams[i].kind == AudioStream)
  {
    var plays := PlayedSet(p.streams);
    var codecs := Codecs(VideoStreams(p.streams));
    forall c ensures c in codecs <==> Some(c) in plays { CodecsArePlayed(p.streams, c); }
    VideosArePlayed(p.streams);
    KindFromTests(ProbeKind(p), p.containerFormat, codecs, plays, VideoStreams(p.streams) != [],
                  exists i :: 0 <= i < |p.streams| && p.streams[i].kind == AudioStream);
  }

  lemma {:induction false} StoredCodecsArePlayed(js: seq<Json>, c: string)
    ensures c in PlayableCodecs(js) <==> PlayedJson(js, Some(c))
  {
    if js != [] {
      StoredCodecsArePlayed(js[1..], c);
      if PlayedJson(js[1..], Some(c)) {
        var i :| 0 <= i < |js[1..]| && PlaysJson(js[1..][i], Some(c));
        assert PlaysJson(js[i + 1], Some(c));
      }
      if PlayedJson(js, Some(c)) && !PlaysJson(js[0], Some(c)) {
        var i :| 0 <= i < |js| && PlaysJson(js[i], Some(c));
        assert PlaysJson(js[1..][i - 1], Some(c));
      }
    }
  }

  ghost function PlayedJsonSet(js: seq<Json>): iset<Option<string>> { iset c | PlayedJson(js, c) }

  lemma StoredVideosArePlayed(js: seq<Json>)
    ensures (exists i :: 0 <= i < |js| && IsPlayableJson(js[i])) <==> exists c :: c in PlayedJsonSet(js)
  {
    if i :| 0 <= i < |js| && IsPlayableJson(js[i]) {
      assert PlaysJson(js[i], GetStr(js[i], "codec"));
      assert GetStr(js[i], "codec") in PlayedJsonSet(js);
    }
    if c :| c in PlayedJsonSet(js) {
      var i :| 0 <= i < |js| && PlaysJson(js[i], c);
      assert IsPlayableJson(js[i]);
    }
  }

  /** The streams of any stored value: none unless there is an array of them. */
  ghost function StoredStreams(j: Json): seq<Json> {
    if j.Obj? && "streams" in j.fields && j.fields["streams"].Arr? then j.fields["streams"].items else []
  }

  ghost function StoredContainer(j: Json): Option<string> {
    if j.Obj? && "container_format" in j.fields && j.fields["container_format"].Str?
    then Some(j.fields["container_format"].s) else None
  }

  /** And of any stored value, whether or not it stands for a probe. */
  lemma StoredKindMeaning(j: Json)
    ensures KindIs(StoredKind(j), StoredContainer(j), PlayedJsonSet(StoredStreams(j)),
                   exists i :: 0 <= i < |StoredStreams(j)| && IsAudioJson(StoredStreams(j)[i]))
  {
    var js := StoredStreams(j);
    var plays := PlayedJsonSet(js);
    var codecs := PlayableCodecs(js);
    forall c ensures c in codecs <==> Some(c) in plays { StoredCodecsArePlayed(js, c); }
    StoredVideosArePlayed(js);
    KindFromTests(StoredKind(j), StoredContainer(j), codecs, plays, exists i :: 0 <= i < |js| && IsPlayableJson(js[i]),
                  exists i :: 0 <= i < |js| && IsAudioJson(js[i]));
  }
}
