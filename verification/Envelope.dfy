/**
  The versioned ingest envelope (crates/inbox/src/lib.rs): one JSON object holding the typed source,
  the typed pipeline stages, and every key that neither of them names. Objects from before the
  envelope are upgraded when they are read.

  Two things outside the module are parameters: `size`, the serialized length of a value, and
  `mentionsMissing`, whether the text of the error for a bad inspection contains "missing field".
*/
module Envelope {
  import opened Prelude
  import opened Serde

  const VERSION := 1
  const MAX_BYTES := 256 * 1024
  const MARKER := "_sooqa_duplicate_decision_v1"

  const I64_MIN := -0x8000_0000_0000_0000
  const I64_MAX := 0x7fff_ffff_ffff_ffff

  const MEDIA_KINDS := {"video", "image", "audio", "animation", "unknown"}
  const ACTIONS := {"save", "queue", "post_now"}

  function Optional(name: string, kind: Kind): Field { Field(name, kind, Omitted) }

  function Nullable(name: string, kind: Kind): Field { Field(name, kind, NullWhenAbsent) }

  function Mandatory(name: string, kind: Kind): Field { Field(name, kind, Required) }

  const U64 := Integer(0, U64_MAX)
  const U32 := Integer(0, 0xffff_ffff)
  const I64 := Integer(I64_MIN, I64_MAX)

  /** IngestSourceData, without its flattened extensions. */
  const SOURCE: seq<Field> := [
    Optional("url", Text),
    Optional("page_url", Text),
    Optional("page_title", Text),
    Optional("selected_text", Text),
    Optional("description", Text),
    Field("tags", TextList, OmittedWhenEmpty),
    Optional("requested_action", Choice(ACTIONS)),
    Optional("requested_publish_at", Text),
    Optional("requested_post_caption", Text),
    Optional("source_type", Text),
    Optional("telegram_update_id", I64),
    Optional("telegram_chat_id", I64),
    Optional("telegram_message_id", I64),
    Optional("telegram_user_id", I64),
    Optional("telegram_file_id", Text),
    Optional("telegram_file_unique_id", Text),
    Optional("telegram_workspace_id", Text),
    Optional("file_size", U64),
    Optional("mime_type", Text),
    Optional("file_name", Text),
    Optional("media_kind", Choice(MEDIA_KINDS))]

  const INSPECTION: seq<Field> := [
    Mandatory("adapter", Text),
    Mandatory("source_url", Text),
    Nullable("resolved_url", Text),
    Mandatory("media_kind", Choice(MEDIA_KINDS)),
    Nullable("mime_type", Text),
    Nullable("content_length_bytes", U64),
    Nullable("title", Text),
    Mandatory("metadata", Any)]

  const DOWNLOAD: seq<Field> := [
    Mandatory("bytes", U64),
    Nullable("mime_type", Text),
    Mandatory("media_kind", Choice(MEDIA_KINDS)),
    Optional("selected_format", Text)]

  const THUMBNAIL: seq<Field> := [
    Mandatory("local_work_path", Text),
    Mandatory("file_size_bytes", U64),
    Mandatory("sha256", Text),
    Nullable("mime_type", Text),
    Nullable("width", U32),
    Nullable("height", U32)]

  const NORMALIZATION: seq<Field> := [
    Mandatory("local_work_path", Text),
    Mandatory("file_size_bytes", U64),
    Mandatory("sha256", Text),
    Mandatory("media_kind", Choice(MEDIA_KINDS)),
    Optional("profile_version", Text),
    Nullable("mime_type", Text),
    Nullable("container", Text),
    Nullable("video_codec", Text),
    Nullable("audio_codec", Text),
    Nullable("width", U32),
    Nullable("height", U32),
    Nullable("duration_ms", U64),
    Nullable("bit_rate", U64),
    Optional("thumbnail", Record(THUMBNAIL))]

  const FINALIZATION: seq<Field> := [Mandatory("media_id", Uuid)]

  const DECISION: seq<Field> := [
    Mandatory("version", Integer(0, 255)),
    Mandatory("kind", Choice({"accepted"})),
    Mandatory("media_id", Uuid)]

  const PROBE_INDEX := 2
  const DECISION_INDEX := 6

  /** The stage fields of IngestData. */
  const STAGES: seq<Field> := [
    Optional("inspection", Record(INSPECTION)),
    Optional("download", Record(DOWNLOAD)),
    Optional("probe", Any),
    Optional("probed_media_kind", Choice(MEDIA_KINDS)),
    Optional("normalization", Record(NORMALIZATION)),
    Optional("finalization", Record(FINALIZATION)),
    Optional(MARKER, Record(DECISION))]

  predicate IsEnvelopeKey(key: string) { key == "version" || key == "source" || key in Names(STAGES) }

  datatype Source = Source(values: seq<Value>, extensions: map<string, Json>)

  datatype IngestData = IngestData(
    version: int, source: Source, stages: seq<Value>, extensions: map<string, Json>)

  datatype DataError = NotAnObject | InvalidVersion | UnsupportedVersion(version: int) | Malformed | TooLarge

  // ---------------------------------------------------------------- codec

  function Validate(d: IngestData): Option<DataError>
    requires |d.stages| == |STAGES|
  {
    if d.version != VERSION then Some(UnsupportedVersion(d.version))
    else if exists k :: k in d.source.extensions && k in Names(SOURCE) then Some(Malformed)
    else if exists k :: k in d.extensions && IsEnvelopeKey(k) then Some(Malformed)
    else if d.stages[DECISION_INDEX].RecordValue? && d.stages[DECISION_INDEX].values != []
            && d.stages[DECISION_INDEX].values[0] != IntValue(1) then Some(Malformed)
    else if d.stages[PROBE_INDEX].AnyValue? && !d.stages[PROBE_INDEX].json.Obj? then Some(Malformed)
    else None
  }

  function Validated(d: IngestData): Result<IngestData, DataError>
    requires |d.stages| == |STAGES|
  {
    match Validate(d)
    case Some(error) => Err(error)
    case None => Ok(d)
  }

  /** The derived serialization. */
  function ToValue(d: IngestData): Json
    requires |d.stages| == |STAGES| && |d.source.values| == |SOURCE|
  {
    Obj(EncodeFields(STAGES, d.stages, d.extensions)[
      "version" := Int(d.version)][
      "source" := Obj(EncodeFields(SOURCE, d.source.values, d.source.extensions))])
  }

  function Encode(d: IngestData, size: Json -> nat): Result<Json, DataError>
    requires |d.stages| == |STAGES| && |d.source.values| == |SOURCE|
  {
    match Validate(d)
    case Some(error) => Err(error)
    case None => if size(ToValue(d)) > MAX_BYTES then Err(TooLarge) else Ok(ToValue(d))
  }

  function DecodeSource(fields: map<string, Json>): (r: Option<Source>)
    ensures r.Some? ==> |r.value.values| == |SOURCE|
  {
    match DecodeFields(SOURCE, fields)
    case None => None
    case Some(values) => Some(Source(values, Unnamed(SOURCE, fields)))
  }

  /** The derived deserialization of a versioned object. */
  function FromValue(fields: map<string, Json>): (r: Option<IngestData>)
    ensures r.Some? ==> |r.value.stages| == |STAGES| && |r.value.source.values| == |SOURCE|
  {
    if !("version" in fields && fields["version"].Int? && 0 <= fields["version"].i <= 0xffff) then None
    else if !("source" in fields && fields["source"].Obj?) then None
    else
      match DecodeSource(fields["source"].fields)
      case None => None
      case Some(source) =>
        match DecodeFields(STAGES, fields)
        case None => None
        case Some(stages) =>
          Some(IngestData(fields["version"].i, source, stages,
                          map k | k in fields && !IsEnvelopeKey(k) :: fields[k]))
  }

  function Decode(value: Json, size: Json -> nat, mentionsMissing: Json -> bool): (r: Result<IngestData, DataError>)
    ensures r.Ok? ==> |r.value.stages| == |STAGES| && |r.value.source.values| == |SOURCE|
  {
    if size(value) > MAX_BYTES then Err(TooLarge)
    else if !value.Obj? then Err(NotAnObject)
    else if "version" in value.fields then
      var version := value.fields["version"];
      if !version.Int? || !(0 <= version.i <= U64_MAX) then Err(InvalidVersion)
      else if version.i != VERSION then Err(UnsupportedVersion(version.i))
      else match FromValue(value.fields)
        case None => Err(Malformed)
        case Some(d) => Validated(d)
    else DecodeLegacy(value.fields, mentionsMissing)
  }

  // ---------------------------------------------------------------- objects without a version

  function AsText(fields: map<string, Json>, key: string): Option<string> {
    if key in fields && fields[key].Str? then Some(fields[key].s) else None
  }

  function TextOrAbsent(text: Option<string>): Value {
    match text case Some(s) => TextValue(s) case None => Absent
  }

  /** The inspection of an early object, with what is missing filled in. */
  function LenientInspection(fields: map<string, Json>, source: Source): Value
    requires |source.values| == |SOURCE|
  {
    var adapter := AsText(fields, "adapter");
    var url := AsText(fields, "source_url");
    RecordValue([
      TextValue(if adapter.Some? then adapter.value else "legacy"),
      TextValue(if url.Some? then url.value
                else if source.values[0].TextValue? then source.values[0].s else ""),
      TextOrAbsent(AsText(fields, "resolved_url")),
      (if "media_kind" in fields && fields["media_kind"].Str? && fields["media_kind"].s in MEDIA_KINDS
       then ChoiceValue(fields["media_kind"].s) else ChoiceValue("unknown")),
      TextOrAbsent(AsText(fields, "mime_type")),
      (if "content_length_bytes" in fields && fields["content_length_bytes"].Int?
          && 0 <= fields["content_length_bytes"].i <= U64_MAX
       then IntValue(fields["content_length_bytes"].i) else Absent),
      TextOrAbsent(AsText(fields, "title")),
      AnyValue(if "metadata" in fields then fields["metadata"] else Obj(map[]))])
  }

  function DecodeLegacyInspection(value: Json, source: Source, mentionsMissing: Json -> bool): Option<Value>
    requires |source.values| == |SOURCE|
  {
    var strict := DecodeValue(Record(INSPECTION), value);
    if strict.Some? then strict
    else if value.Obj? && mentionsMissing(value) then Some(LenientInspection(value.fields, source))
    else None
  }

  /** One optional stage of an early object. Unlike a field of the envelope, a stage that is there
      must decode, so null is an error (for the probe, when it is validated). */
  function DecodeLegacyStage(i: nat, fields: map<string, Json>, source: Source, mentionsMissing: Json -> bool)
    : Option<Value>
    requires i < |STAGES| && |source.values| == |SOURCE|
  {
    if STAGES[i].name !in fields then Some(Absent)
    else if i == 0 then DecodeLegacyInspection(fields[STAGES[i].name], source, mentionsMissing)
    else DecodeValue(STAGES[i].kind, fields[STAGES[i].name])
  }

  function DecodeLegacyStages(i: nat, fields: map<string, Json>, source: Source, mentionsMissing: Json -> bool)
    : (r: Option<seq<Value>>)
    requires i <= |STAGES| && |source.values| == |SOURCE|
    ensures r.Some? ==> |r.value| == |STAGES| - i
    decreases |STAGES| - i
  {
    if i == |STAGES| then Some([])
    else
      match DecodeLegacyStage(i, fields, source, mentionsMissing)
      case None => None
      case Some(v) =>
        match DecodeLegacyStages(i + 1, fields, source, mentionsMissing)
        case None => None
        case Some(rest) => Some([v] + rest)
  }

  /** The source part of an early object: a wrapped object, a bare URL, or the object itself. */
  function LegacySource(fields: map<string, Json>): Option<map<string, Json>> {
    if "source" in fields then
      match fields["source"]
      case Obj(source) => Some(source)
      case Str(url) => Some(map["url" := Str(url)])
      case _ => None
    else Some(map k | k in fields && k !in Names(STAGES) :: fields[k])
  }

  function DecodeLegacy(fields: map<string, Json>, mentionsMissing: Json -> bool): (r: Result<IngestData, DataError>)
    ensures r.Ok? ==> |r.value.stages| == |STAGES| && |r.value.source.values| == |SOURCE|
  {
    match LegacySource(fields)
    case None => Err(Malformed)
    case Some(sourceFields) =>
      match DecodeSource(sourceFields)
      case None => Err(Malformed)
      case Some(source) =>
        match DecodeLegacyStages(0, fields, source, mentionsMissing)
        case None => Err(Malformed)
        case Some(stages) =>
          Validated(IngestData(
            VERSION, source, stages,
            if "source" in fields then map k | k in fields && !IsEnvelopeKey(k) :: fields[k] else map[]))
  }

  /** The loop that removes the stages from an unwrapped object, leaving its source. */
  method RemoveStages(fields: map<string, Json>) returns (source: map<string, Json>)
    ensures source == map k | k in fields && k !in Names(STAGES) :: fields[k]
  {
    source := fields;
    for i := 0 to |STAGES|
      invariant forall k :: k in source <==> k in fields && k !in Names(STAGES[..i])
      invariant forall k :: k in source ==> source[k] == fields[k]
    {
      NamesSnoc(STAGES, i);
      source := source - {STAGES[i].name};
    }
    assert STAGES[..|STAGES|] == STAGES;
  }

  lemma NamesSnoc(schema: seq<Field>, i: nat)
    requires i < |schema|
    ensures Names(schema[..i + 1]) == Names(schema[..i]) + {schema[i].name}
  {
    var longer, shorter := schema[..i + 1], schema[..i];
    forall k | k in Names(longer) ensures k in Names(shorter) + {schema[i].name} {
      var j :| 0 <= j < |longer| && longer[j].name == k;
      if j < i { assert shorter[j].name == k; }
    }
    forall k | k in Names(shorter) ensures k in Names(longer) {
      var j :| 0 <= j < |shorter| && shorter[j].name == k;
      assert longer[j].name == k;
    }
    assert longer[i].name == schema[i].name;
  }

  /** The loop that keeps the keys of a wrapper that nothing names. */
  method CollectExtensions(fields: map<string, Json>) returns (extensions: map<string, Json>)
    ensures extensions == map k | k in fields && !IsEnvelopeKey(k) :: fields[k]
  {
    extensions := map[];
    var rest := fields.Keys;
    while rest != {}
      invariant rest <= fields.Keys
      invariant forall k :: k in extensions <==> k in fields && k !in rest && !IsEnvelopeKey(k)
      invariant forall k :: k in extensions ==> extensions[k] == fields[k]
      decreases |rest|
    {
      var key :| key in rest;
      rest := rest - {key};
      if !IsEnvelopeKey(key) { extensions := extensions[key := fields[key]]; }
    }
  }

  lemma LegacyStep(i: nat, fields: map<string, Json>, source: Source, mentionsMissing: Json -> bool, done: seq<Value>)
    requires i < |STAGES| && |source.values| == |SOURCE|
    ensures var v := DecodeLegacyStage(i, fields, source, mentionsMissing);
      Following(done, DecodeLegacyStages(i, fields, source, mentionsMissing)) ==
        if v.None? then None
        else Following(done + [v.value], DecodeLegacyStages(i + 1, fields, source, mentionsMissing))
  {
    var v := DecodeLegacyStage(i, fields, source, mentionsMissing);
    var rest := DecodeLegacyStages(i + 1, fields, source, mentionsMissing);
    if v.Some? && rest.Some? { Associate(done, [v.value], rest.value); }
  }

  ghost function Following(done: seq<Value>, rest: Option<seq<Value>>): Option<seq<Value>> {
    if rest.None? then None else Some(done + rest.value)
  }

  /** The stages are filled in one after the other. */
  method FillStages(fields: map<string, Json>, source: Source, mentionsMissing: Json -> bool)
    returns (r: Option<seq<Value>>)
    requires |source.values| == |SOURCE|
    ensures r == DecodeLegacyStages(0, fields, source, mentionsMissing)
  {
    var stages: seq<Value> := [];
    ghost var all := DecodeLegacyStages(0, fields, source, mentionsMissing);
    if all.Some? { assert [] + all.value == all.value; }
    for i := 0 to |STAGES|
      invariant all == Following(stages, DecodeLegacyStages(i, fields, source, mentionsMissing))
    {
      LegacyStep(i, fields, source, mentionsMissing, stages);
      var v := DecodeLegacyStage(i, fields, source, mentionsMissing);
      if v.None? { return None; }
      stages := stages + [v.value];
    }
    assert stages + [] == stages;
    r := Some(stages);
  }

  /** The source part, cut out of the object. */
  method TakeSource(fields: map<string, Json>) returns (r: Option<map<string, Json>>)
    ensures r == LegacySource(fields)
  {
    if "source" !in fields {
      var source := RemoveStages(fields);
      return Some(source);
    }
    match fields["source"] {
      case Obj(source) => r := Some(source);
      case Str(url) => r := Some(map["url" := Str(url)]);
      case _ => r := None;
    }
  }

  /** decode_legacy, editing maps and filling in the envelope step by step. */
  method UpgradeLegacy(fields: map<string, Json>, mentionsMissing: Json -> bool)
    returns (r: Result<IngestData, DataError>)
    ensures r == DecodeLegacy(fields, mentionsMissing)
    ensures forall data :: r == Ok(data) <==> LegacySays(fields, mentionsMissing, data)
  {
    r := FillEnvelope(fields, mentionsMissing);
    forall data ensures r == Ok(data) <==> LegacySays(fields, mentionsMissing, data) {
      DecodeLegacyExactly(fields, mentionsMissing, data);
    }
  }

  method FillEnvelope(fields: map<string, Json>, mentionsMissing: Json -> bool)
    returns (r: Result<IngestData, DataError>)
    ensures r == DecodeLegacy(fields, mentionsMissing)
  {
    var sourceFields := TakeSource(fields);
    if sourceFields.None? { return Err(Malformed); }
    var source := DecodeSource(sourceFields.value);
    if source.None? { return Err(Malformed); }
    var stages := FillStages(fields, source.value, mentionsMissing);
    if stages.None? { return Err(Malformed); }
    var extensions: map<string, Json> := map[];
    if "source" in fields { extensions := CollectExtensions(fields); }
    r := Validated(IngestData(VERSION, source.value, stages.value, extensions));
  }

  // ---------------------------------------------------------------- the schemas have distinct names

  ghost function NameList(schema: seq<Field>): seq<string> {
    seq(|schema|, i requires 0 <= i < |schema| => schema[i].name)
  }

  ghost predicate KindsOk(schema: seq<Field>) {
    forall i :: 0 <= i < |schema| ==>
      && (schema[i].presence.OmittedWhenEmpty? ==> schema[i].kind.TextList?)
      && (schema[i].kind.Record? ==> WellFormed(schema[i].kind.schema))
  }

  lemma {:induction false} DistinctIsWellFormed(schema: seq<Field>)
    requires Distinct(NameList(schema)) && KindsOk(schema)
    ensures WellFormed(schema)
    decreases |schema|
  {
    if schema != [] {
      var names, tail := NameList(schema), schema[1..];
      assert NameList(tail) == names[1..];
      forall i | 0 <= i < |tail| ensures tail[i].name != schema[0].name {
        assert tail[i].name == names[i + 1] && names[0] == schema[0].name;
      }
      DistinctIsWellFormed(tail);
    }
  }

  lemma SourceNamesAreDistinct()
    ensures Distinct(NameList(SOURCE))
  {
    assert "file_size"[5] != "mime_type"[5] && "file_size"[5] != "file_name"[5] && "mime_type"[5] != "file_name"[5];
    assert "page_title"[0] != "media_kind"[0] && "description"[0] != "source_type"[0];
    assert "requested_action"[9] == '_' && "telegram_chat_id"[9] == 'c';
    assert "telegram_user_id"[9] == 'u' && "telegram_file_id"[9] == 'f';
  }

  lemma SourceIsWellFormed()
    ensures WellFormed(SOURCE)
  {
    SourceNamesAreDistinct();
    DistinctIsWellFormed(SOURCE);
  }

  lemma InspectionIsWellFormed()
    ensures WellFormed(INSPECTION)
  {
    assert "source_url"[0] != "media_kind"[0];
    DistinctIsWellFormed(INSPECTION);
  }

  lemma DownloadIsWellFormed()
    ensures WellFormed(DOWNLOAD)
  {
    DistinctIsWellFormed(DOWNLOAD);
  }

  lemma ThumbnailIsWellFormed()
    ensures WellFormed(THUMBNAIL)
  {
    assert "local_work_path"[0] != "file_size_bytes"[0] && "sha256"[0] != "height"[0];
    DistinctIsWellFormed(THUMBNAIL);
  }

  lemma NormalizationNamesAreDistinct()
    ensures Distinct(NameList(NORMALIZATION))
  {
    assert "local_work_path"[0] == 'l' && "file_size_bytes"[0] == 'f' && "profile_version"[0] == 'p';
    assert "sha256"[0] != "height"[0];
    assert "mime_type"[0] == 'm' && "container"[0] == 'c' && "thumbnail"[0] == 't';
    assert "video_codec"[0] == 'v' && "audio_codec"[0] == 'a' && "duration_ms"[0] == 'd';
  }

  lemma NormalizationIsWellFormed()
    ensures WellFormed(NORMALIZATION)
  {
    ThumbnailIsWellFormed();
    NormalizationNamesAreDistinct();
    DistinctIsWellFormed(NORMALIZATION);
  }

  lemma SmallStagesAreWellFormed()
    ensures WellFormed(FINALIZATION) && WellFormed(DECISION)
  {
    DistinctIsWellFormed(FINALIZATION);
    DistinctIsWellFormed(DECISION);
  }

  lemma StageKindsAreOk()
    ensures KindsOk(STAGES)
  {
    InspectionIsWellFormed();
    DownloadIsWellFormed();
    NormalizationIsWellFormed();
    SmallStagesAreWellFormed();
  }

  lemma StagesAreWellFormed()
    ensures WellFormed(STAGES)
    ensures "version" !in Names(STAGES) && "source" !in Names(STAGES)
  {
    StageKindsAreOk();
    DistinctIsWellFormed(STAGES);
  }

  // ---------------------------------------------------------------- laws

  /** Every field holds a value of its declared type. */
  ghost predicate Typed(d: IngestData) {
    && Fits(SOURCE, d.source.values)
    && |d.source.values| == |SOURCE|
    && |d.stages| == |STAGES|
    && forall i :: 0 <= i < |STAGES| ==> d.stages[i].Absent? || HasKind(STAGES[i].kind, d.stages[i])
  }

  lemma {:induction false} FitsByIndex(schema: seq<Field>, values: seq<Value>)
    requires |schema| == |values|
    requires forall i :: 0 <= i < |schema| ==> FieldFits(schema[i], values[i])
    ensures Fits(schema, values)
    decreases |schema|
  {
    if schema != [] {
      forall i | 0 <= i < |schema[1..]| ensures FieldFits(schema[1..][i], values[1..][i]) {
        assert FieldFits(schema[i + 1], values[i + 1]);
      }
      FitsByIndex(schema[1..], values[1..]);
    }
  }

  lemma {:induction false} FitsAtIndex(schema: seq<Field>, values: seq<Value>, i: nat)
    requires Fits(schema, values) && i < |schema|
    ensures |values| == |schema| && FieldFits(schema[i], values[i])
    decreases |schema|
  {
    if i > 0 { FitsAtIndex(schema[1..], values[1..], i - 1); }
  }

  lemma ValidStagesFit(d: IngestData)
    requires Typed(d) && Validate(d).None?
    ensures Fits(STAGES, d.stages)
  {
    forall i | 0 <= i < |STAGES| ensures FieldFits(STAGES[i], d.stages[i]) {
      assert STAGES[i].presence.Omitted?;
    }
    FitsByIndex(STAGES, d.stages);
  }

  /** Reading back what was written gives the same envelope, extension maps included. */
  lemma RoundTrip(d: IngestData, size: Json -> nat, mentionsMissing: Json -> bool)
    requires Typed(d) && Encode(d, size).Ok?
    ensures Decode(Encode(d, size).value, size, mentionsMissing) == Ok(d)
  {
    FromWritten(d);
  }

  lemma FromWritten(d: IngestData)
    requires Typed(d) && Validate(d).None?
    ensures FromValue(ToValue(d).fields) == Some(d)
  {
    ValidStagesFit(d);
    StagesRoundTrip(d);
    SourceRoundTrip(d.source);
  }

  lemma SourceRoundTrip(source: Source)
    requires Fits(SOURCE, source.values) && forall k :: k in source.extensions ==> k !in Names(SOURCE)
    ensures DecodeSource(EncodeFields(SOURCE, source.values, source.extensions)) == Some(source)
  {
    SourceIsWellFormed();
    FieldsRoundTrip(SOURCE, source.values, source.extensions);
    UnnamedEncode(SOURCE, source.values, source.extensions);
  }

  /** The stages and the unnamed keys survive next to the version and the source. */
  lemma StagesRoundTrip(d: IngestData)
    requires Typed(d) && Validate(d).None? && Fits(STAGES, d.stages)
    ensures DecodeFields(STAGES, ToValue(d).fields) == Some(d.stages)
    ensures (map k | k in ToValue(d).fields && !IsEnvelopeKey(k) :: ToValue(d).fields[k]) == d.extensions
  {
    StagesAreWellFormed();
    var inner, fields := EncodeFields(STAGES, d.stages, d.extensions), ToValue(d).fields;
    FieldsRoundTrip(STAGES, d.stages, d.extensions);
    DecodeLooksAtNames(STAGES, inner, fields);
    forall k | !IsEnvelopeKey(k)
      ensures (k in fields <==> k in d.extensions) && (k in d.extensions ==> fields[k] == d.extensions[k])
    {
      EncodeKeepsOthers(STAGES, d.stages, d.extensions, k);
    }
  }

  lemma LenientFieldFits(i: nat, fields: map<string, Json>, source: Source)
    requires i < |INSPECTION| && |source.values| == |SOURCE|
    ensures FieldFits(INSPECTION[i], LenientInspection(fields, source).values[i])
  {}

  lemma LenientInspectionHasKind(fields: map<string, Json>, source: Source)
    requires |source.values| == |SOURCE|
    ensures HasKind(Record(INSPECTION), LenientInspection(fields, source))
  {
    var values := LenientInspection(fields, source).values;
    forall i | 0 <= i < |INSPECTION| ensures FieldFits(INSPECTION[i], values[i]) {
      LenientFieldFits(i, fields, source);
    }
    FitsByIndex(INSPECTION, values);
  }

  lemma LegacyStageHasKind(i: nat, fields: map<string, Json>, source: Source, mentionsMissing: Json -> bool)
    requires i < |STAGES| && |source.values| == |SOURCE|
    requires DecodeLegacyStage(i, fields, source, mentionsMissing).Some?
    ensures var v := DecodeLegacyStage(i, fields, source, mentionsMissing).value;
            v.Absent? || HasKind(STAGES[i].kind, v)
  {
    if STAGES[i].name in fields {
      var j := fields[STAGES[i].name];
      StageKindsAreWellFormed(i);
      if DecodeValue(STAGES[i].kind, j).Some? { DecodedValueHasKind(STAGES[i].kind, j); }
      if j.Obj? { LenientInspectionHasKind(j.fields, source); }
    }
  }

  lemma StageKindsAreWellFormed(i: nat)
    requires i < |STAGES|
    ensures STAGES[i].kind.Record? ==> WellFormed(STAGES[i].kind.schema)
  {
    StageKindsAreOk();
  }

  /** The stages are decoded one by one. */
  lemma {:induction false} LegacyStageAt(
    i: nat, n: nat, fields: map<string, Json>, source: Source, mentionsMissing: Json -> bool)
    requires i <= n < |STAGES| && |source.values| == |SOURCE|
    requires DecodeLegacyStages(i, fields, source, mentionsMissing).Some?
    ensures DecodeLegacyStage(n, fields, source, mentionsMissing) ==
      Some(DecodeLegacyStages(i, fields, source, mentionsMissing).value[n - i])
    decreases n - i
  {
    if i < n { LegacyStageAt(i + 1, n, fields, source, mentionsMissing); }
  }

  lemma DecodedStagesFit(fields: map<string, Json>)
    requires DecodeFields(STAGES, fields).Some?
    ensures var stages := DecodeFields(STAGES, fields).value;
      && |stages| == |STAGES|
      && forall i :: 0 <= i < |STAGES| ==> stages[i].Absent? || HasKind(STAGES[i].kind, stages[i])
  {
    var stages := DecodeFields(STAGES, fields).value;
    StagesAreWellFormed();
    DecodedFieldsFit(STAGES, fields);
    forall i | 0 <= i < |STAGES| ensures stages[i].Absent? || HasKind(STAGES[i].kind, stages[i]) {
      FitsAtIndex(STAGES, stages, i);
    }
  }

  /** Whatever decodes, versioned or not, is a well-typed valid envelope. */
  lemma DecodedIsTyped(value: Json, size: Json -> nat, mentionsMissing: Json -> bool)
    requires Decode(value, size, mentionsMissing).Ok?
    ensures Typed(Decode(value, size, mentionsMissing).value)
    ensures Validate(Decode(value, size, mentionsMissing).value).None?
  {
    SourceIsWellFormed();
    var fields, d := value.fields, Decode(value, size, mentionsMissing).value;
    if "version" in fields {
      DecodedFieldsFit(SOURCE, fields["source"].fields);
      DecodedStagesFit(fields);
    } else {
      DecodedFieldsFit(SOURCE, LegacySource(fields).value);
      forall n | 0 <= n < |STAGES| ensures d.stages[n].Absent? || HasKind(STAGES[n].kind, d.stages[n]) {
        LegacyStageAt(0, n, fields, d.source, mentionsMissing);
        LegacyStageHasKind(n, fields, d.source, mentionsMissing);
      }
    }
  }

  /** Upgrading is stable: an object that decodes, of any age, is the same envelope after it has been
      written out once, provided the written form fits the byte limit. */
  lemma UpgradeIsStable(value: Json, size: Json -> nat, mentionsMissing: Json -> bool)
    requires Decode(value, size, mentionsMissing).Ok?
    ensures var d := Decode(value, size, mentionsMissing).value;
            && (Encode(d, size).Ok? <==> size(ToValue(d)) <= MAX_BYTES)
            && (Encode(d, size).Ok? ==> Decode(Encode(d, size).value, size, mentionsMissing) == Ok(d))
  {
    var d := Decode(value, size, mentionsMissing).value;
    DecodedIsTyped(value, size, mentionsMissing);
    if Encode(d, size).Ok? { RoundTrip(d, size, mentionsMissing); }
  }

  /** The keys that the envelope itself gives a meaning. */
  ghost function EnvelopeKeys(): set<string> { Names(STAGES) + {"version", "source"} }

  /** Outside the named keys the two objects are the same: nothing is lost, changed or invented. */
  ghost predicate SameOutside(named: set<string>, a: map<string, Json>, b: map<string, Json>) {
    forall k :: k !in named ==> (k in a <==> k in b) && (k in a ==> a[k] == b[k])
  }

  /** What is written for an envelope: its extensions beside the envelope's own keys, and an object for
      the source that holds the source's extensions beside the source's own keys. */
  lemma WrittenKeepsExtensions(d: IngestData)
    requires |d.stages| == |STAGES| && |d.source.values| == |SOURCE|
    ensures var out := ToValue(d).fields;
      && SameOutside(EnvelopeKeys(), out, d.extensions)
      && "source" in out && out["source"].Obj?
      && SameOutside(Names(SOURCE), out["source"].fields, d.source.extensions)
  {
    var out := ToValue(d).fields;
    forall k | k !in EnvelopeKeys()
      ensures (k in out <==> k in d.extensions) && (k in out ==> out[k] == d.extensions[k])
    {
      EncodeKeepsOthers(STAGES, d.stages, d.extensions, k);
    }
    var source := out["source"].fields;
    forall k | k !in Names(SOURCE)
      ensures (k in source <==> k in d.source.extensions) && (k in source ==> source[k] == d.source.extensions[k])
    {
      EncodeKeepsOthers(SOURCE, d.source.values, d.source.extensions, k);
    }
  }

  lemma SameTransitive(named: set<string>, a: map<string, Json>, b: map<string, Json>, c: map<string, Json>)
    requires SameOutside(named, a, b) && SameOutside(named, b, c)
    ensures SameOutside(named, a, c)
  {}

  /** What the legacy decoder keeps apart. */
  lemma LegacyExtensions(fields: map<string, Json>, size: Json -> nat, mentionsMissing: Json -> bool)
    requires "version" !in fields && Decode(Obj(fields), size, mentionsMissing).Ok?
    ensures var d := Decode(Obj(fields), size, mentionsMissing).value;
      && LegacySource(fields).Some?
      && d.extensions == (if "source" in fields then fields - EnvelopeKeys() else map[])
      && SameOutside(Names(SOURCE), d.source.extensions, LegacySource(fields).value)
  {}

  /**
    From the object that is read to the object that is written, no unknown key of an early object is
    lost or changed and none is invented. A wrapper's unknown keys stay beside the source and a wrapped
    source's inside it; without a wrapper, every unknown key that is not a stage goes into the source.
  */
  lemma UnknownKeysSurvive(fields: map<string, Json>, size: Json -> nat, mentionsMissing: Json -> bool)
    requires "version" !in fields && Decode(Obj(fields), size, mentionsMissing).Ok?
    ensures var out := ToValue(Decode(Obj(fields), size, mentionsMissing).value).fields;
      && "source" in out && out["source"].Obj?
      && SameOutside(EnvelopeKeys(), out, if "source" in fields then fields else map[])
      && SameOutside(Names(SOURCE), out["source"].fields,
                     OriginalSource(fields))
  {
    var d := Decode(Obj(fields), size, mentionsMissing).value;
    var out := ToValue(d).fields;
    LegacyExtensions(fields, size, mentionsMissing);
    WrittenKeepsExtensions(d);
    SameTransitive(Names(SOURCE), out["source"].fields, d.source.extensions, LegacySource(fields).value);
    LegacySourceMeaning(fields);
    SameTransitive(Names(SOURCE), out["source"].fields, LegacySource(fields).value, OriginalSource(fields));
  }

  /** The part of an early object that is its source, in the terms of the object. */
  ghost function OriginalSource(fields: map<string, Json>): map<string, Json> {
    if "source" !in fields then fields - Names(STAGES)
    else if fields["source"].Obj? then fields["source"].fields
    else map[]
  }

  lemma LegacySourceMeaning(fields: map<string, Json>)
    requires LegacySource(fields).Some?
    ensures SameOutside(Names(SOURCE), LegacySource(fields).value, OriginalSource(fields))
  {
    assert SOURCE[0].name == "url";
    assert "url" in Names(SOURCE);
  }

  /** The same for an envelope that carries a version. */
  lemma VersionedUnknownKeysSurvive(fields: map<string, Json>, size: Json -> nat, mentionsMissing: Json -> bool)
    requires "version" in fields && Decode(Obj(fields), size, mentionsMissing).Ok?
    ensures var d := Decode(Obj(fields), size, mentionsMissing).value; var out := ToValue(d).fields;
      && d.extensions == fields - EnvelopeKeys()
      && "source" in fields && fields["source"].Obj? && "source" in out && out["source"].Obj?
      && SameOutside(EnvelopeKeys(), out, fields)
      && SameOutside(Names(SOURCE), out["source"].fields, fields["source"].fields)
  {
    var d := Decode(Obj(fields), size, mentionsMissing).value;
    assert FromValue(fields) == Some(d);
    WrittenKeepsExtensions(d);
  }

  // ---------------------------------------------------------------- what is read, in terms of what is said

  /** The object says this source: its named keys, and every other key beside them. */
  ghost predicate SourceSays(fields: map<string, Json>, source: Source) {
    FieldsSay(SOURCE, fields, source.values) && source.extensions == fields - Names(SOURCE)
  }

  /** A probe that is there is an object, and a decision that is there has version 1. In an early object
      null is there like anything else. */
  ghost predicate StagesAllowed(fields: map<string, Json>, early: bool) {
    && ("probe" in fields && (early || fields["probe"] != Null) ==> fields["probe"].Obj?)
    && (MARKER in fields && (early || fields[MARKER] != Null) ==>
          && fields[MARKER].Obj? && "version" in fields[MARKER].fields
          && fields[MARKER].fields["version"] == Int(1))
  }

  /** What a versioned object says. */
  ghost predicate VersionedSays(fields: map<string, Json>, d: IngestData) {
    && "version" in fields && fields["version"] == Int(1) && d.version == 1
    && "source" in fields && fields["source"].Obj? && SourceSays(fields["source"].fields, d.source)
    && FieldsSay(STAGES, fields, d.stages) && StagesAllowed(fields, false)
    && d.extensions == fields - EnvelopeKeys()
  }

  /** What is filled in for a key that an early inspection lacks, or has with another type. */
  ghost function InspectionDefault(i: nat, source: Source): Value {
    match i
    case 0 => TextValue("legacy")
    case 1 => TextValue(if source.values != [] && source.values[0].TextValue? then source.values[0].s else "")
    case 3 => ChoiceValue("unknown")
    case 7 => AnyValue(Obj(map[]))
    case _ => Absent
  }

  /** Every key of the inspection that is there with its declared type is kept. */
  ghost predicate LenientFieldSays(i: nat, fields: map<string, Json>, source: Source, v: Value)
    requires i < |INSPECTION|
  {
    var Field(name, kind, _) := INSPECTION[i];
    && (name in fields ==> forall w :: Says(kind, fields[name], w) ==> v == w)
    && ((name in fields ==> forall w :: !Says(kind, fields[name], w)) ==> v == InspectionDefault(i, source))
  }

  ghost predicate LenientSays(fields: map<string, Json>, source: Source, v: Value) {
    && v.RecordValue? && |v.values| == |INSPECTION|
    && forall i :: 0 <= i < |INSPECTION| ==> LenientFieldSays(i, fields, source, v.values[i])
  }

  /** What the n-th stage of an early object says: a stage that is there must say something. */
  ghost predicate StageSays(
    n: nat, fields: map<string, Json>, source: Source, mentionsMissing: Json -> bool, v: Value)
    requires n < |STAGES|
  {
    var Field(name, kind, _) := STAGES[n];
    if name !in fields then v == Absent
    else
      || Says(kind, fields[name], v)
      || (n == 0 && fields[name].Obj? && mentionsMissing(fields[name])
          && (forall w :: !Says(kind, fields[name], w)) && LenientSays(fields[name].fields, source, v))
  }

  /** The part of an early object that is its source: a wrapped object, a bare URL, or all that is no stage. */
  ghost predicate SourcePart(fields: map<string, Json>, part: map<string, Json>) {
    if "source" !in fields then part == fields - Names(STAGES)
    else match fields["source"]
      case Obj(inner) => part == inner
      case Str(url) => part == map["url" := Str(url)]
      case _ => false
  }

  /** What an early object says. */
  ghost predicate LegacySays(fields: map<string, Json>, mentionsMissing: Json -> bool, d: IngestData) {
    && d.version == 1
    && (exists part :: SourcePart(fields, part) && SourceSays(part, d.source))
    && |d.stages| == |STAGES|
    && (forall n :: 0 <= n < |STAGES| ==> StageSays(n, fields, d.source, mentionsMissing, d.stages[n]))
    && StagesAllowed(fields, true)
    && d.extensions == if "source" in fields then fields - EnvelopeKeys() else map[]
  }

  lemma SourceExactly(fields: map<string, Json>, source: Source)
    ensures DecodeSource(fields) == Some(source) <==> SourceSays(fields, source)
  {
    FieldsDecodeExactly(SOURCE, fields, source.values);
    assert Unnamed(SOURCE, fields) == fields - Names(SOURCE);
  }

  lemma LenientValue(i: nat, fields: map<string, Json>, source: Source)
    requires i < |INSPECTION| && |source.values| == |SOURCE|
    ensures var Field(name, kind, _) := INSPECTION[i];
      LenientInspection(fields, source).values[i] ==
        if name in fields && DecodeValue(kind, fields[name]).Some? then DecodeValue(kind, fields[name]).value
        else InspectionDefault(i, source)
  {
    if i < 4 { LenientFirst(i, fields, source); } else { LenientLast(i, fields, source); }
  }

  lemma LenientFirst(i: nat, fields: map<string, Json>, source: Source)
    requires i < 4 && |source.values| == |SOURCE|
    ensures var Field(name, kind, _) := INSPECTION[i];
      LenientInspection(fields, source).values[i] ==
        if name in fields && DecodeValue(kind, fields[name]).Some? then DecodeValue(kind, fields[name]).value
        else InspectionDefault(i, source)
  {}

  lemma LenientLast(i: nat, fields: map<string, Json>, source: Source)
    requires 4 <= i < |INSPECTION| && |source.values| == |SOURCE|
    ensures var Field(name, kind, _) := INSPECTION[i];
      LenientInspection(fields, source).values[i] ==
        if name in fields && DecodeValue(kind, fields[name]).Some? then DecodeValue(kind, fields[name]).value
        else InspectionDefault(i, source)
  {}

  lemma LenientFieldExactly(i: nat, fields: map<string, Json>, source: Source, v: Value)
    requires i < |INSPECTION| && |source.values| == |SOURCE|
    ensures LenientFieldSays(i, fields, source, v) <==> v == LenientInspection(fields, source).values[i]
  {
    var Field(name, kind, _) := INSPECTION[i];
    LenientValue(i, fields, source);
    if name in fields {
      var decoded := DecodeValue(kind, fields[name]);
      if decoded.Some? { DecodesExactly(kind, fields[name], decoded.value); }
      forall w ensures decoded == Some(w) <==> Says(kind, fields[name], w) {
        DecodesExactly(kind, fields[name], w);
      }
    }
  }

  lemma LenientExactly(fields: map<string, Json>, source: Source, v: Value)
    requires |source.values| == |SOURCE|
    ensures LenientSays(fields, source, v) <==> v == LenientInspection(fields, source)
  {
    var lenient := LenientInspection(fields, source);
    forall i, w | 0 <= i < |INSPECTION|
      ensures LenientFieldSays(i, fields, source, w) <==> w == lenient.values[i]
    {
      LenientFieldExactly(i, fields, source, w);
    }
    if LenientSays(fields, source, v) { assert v.values == lenient.values; }
  }

  /** A stage that is there decodes to what it says, and is refused when it says nothing. */
  lemma StageExactly(
    n: nat, fields: map<string, Json>, source: Source, mentionsMissing: Json -> bool, v: Value)
    requires n < |STAGES| && |source.values| == |SOURCE|
    ensures DecodeLegacyStage(n, fields, source, mentionsMissing) == Some(v) <==>
      StageSays(n, fields, source, mentionsMissing, v)
  {
    var Field(name, kind, _) := STAGES[n];
    if name in fields {
      var j := fields[name];
      var strict := DecodeValue(kind, j);
      if strict.Some? { DecodesExactly(kind, j, strict.value); }
      forall w ensures strict == Some(w) <==> Says(kind, j, w) { DecodesExactly(kind, j, w); }
      if n == 0 && j.Obj? { LenientExactly(j.fields, source, v); }
    }
  }

  lemma {:induction false} StagesFrom(
    i: nat, fields: map<string, Json>, source: Source, mentionsMissing: Json -> bool, stages: seq<Value>)
    requires i <= |STAGES| == |stages| && |source.values| == |SOURCE|
    ensures DecodeLegacyStages(i, fields, source, mentionsMissing) == Some(stages[i..]) <==>
      forall n :: i <= n < |STAGES| ==> DecodeLegacyStage(n, fields, source, mentionsMissing) == Some(stages[n])
    decreases |STAGES| - i
  {
    if i < |STAGES| {
      StagesFrom(i + 1, fields, source, mentionsMissing, stages);
      assert stages[i..] == [stages[i]] + stages[i + 1..];
      if DecodeLegacyStages(i, fields, source, mentionsMissing) == Some(stages[i..]) {
        assert DecodeLegacyStages(i + 1, fields, source, mentionsMissing).value == stages[i..][1..];
        assert DecodeLegacyStage(i, fields, source, mentionsMissing).value == stages[i..][0];
      }
    } else {
      assert stages[i..] == [];
    }
  }

  lemma StagesExactly(
    fields: map<string, Json>, source: Source, mentionsMissing: Json -> bool, stages: seq<Value>)
    requires |STAGES| == |stages| && |source.values| == |SOURCE|
    ensures DecodeLegacyStages(0, fields, source, mentionsMissing) == Some(stages) <==>
      forall n :: 0 <= n < |STAGES| ==> StageSays(n, fields, source, mentionsMissing, stages[n])
  {
    StagesFrom(0, fields, source, mentionsMissing, stages);
    assert stages[0..] == stages;
    forall n | 0 <= n < |STAGES|
      ensures DecodeLegacyStage(n, fields, source, mentionsMissing) == Some(stages[n]) <==>
        StageSays(n, fields, source, mentionsMissing, stages[n])
    {
      StageExactly(n, fields, source, mentionsMissing, stages[n]);
    }
  }

  lemma DecisionVersion(j: Json, v: Value)
    requires Says(Record(DECISION), j, v)
    ensures j.Obj? && v.RecordValue? && v.values != []
    ensures v.values[0] == IntValue(1) <==> "version" in j.fields && j.fields["version"] == Int(1)
  {
    assert FieldSays(DECISION[0], j.fields, v.values[0]);
  }

  /** The checks after decoding, for stages that say what the object's keys say. */
  lemma AllowedExactly(d: IngestData, fields: map<string, Json>, early: bool)
    requires |d.stages| == |STAGES| && d.version == 1
    requires d.source.extensions.Keys !! Names(SOURCE) && forall k :: k in d.extensions ==> !IsEnvelopeKey(k)
    requires if "probe" in fields && (early || fields["probe"] != Null)
             then Says(Any, fields["probe"], d.stages[PROBE_INDEX]) else d.stages[PROBE_INDEX] == Absent
    requires if MARKER in fields && (early || fields[MARKER] != Null)
             then Says(Record(DECISION), fields[MARKER], d.stages[DECISION_INDEX])
             else d.stages[DECISION_INDEX] == Absent
    ensures Validate(d).None? <==> StagesAllowed(fields, early)
  {
    if MARKER in fields && (early || fields[MARKER] != Null) {
      DecisionVersion(fields[MARKER], d.stages[DECISION_INDEX]);
    }
  }

  lemma EnvelopeKeysAre(k: string)
    ensures k in EnvelopeKeys() <==> IsEnvelopeKey(k)
  {}

  lemma ExtensionsAre(fields: map<string, Json>)
    ensures (map k | k in fields && !IsEnvelopeKey(k) :: fields[k]) == fields - EnvelopeKeys()
  {}

  /** The derived deserialization, before any check. */
  lemma FromValueExactly(fields: map<string, Json>, d: IngestData)
    requires "version" in fields && fields["version"] == Int(1)
    ensures FromValue(fields) == Some(d) <==>
      && d.version == 1 && "source" in fields && fields["source"].Obj? && SourceSays(fields["source"].fields, d.source)
      && FieldsSay(STAGES, fields, d.stages) && d.extensions == fields - EnvelopeKeys()
  {
    ExtensionsAre(fields);
    FieldsDecodeExactly(STAGES, fields, d.stages);
    if "source" in fields && fields["source"].Obj? { SourceExactly(fields["source"].fields, d.source); }
  }

  lemma VersionedAllowed(fields: map<string, Json>, d: IngestData)
    requires d.version == 1 && d.source.extensions.Keys !! Names(SOURCE)
    requires FieldsSay(STAGES, fields, d.stages) && d.extensions == fields - EnvelopeKeys()
    ensures Validate(d).None? <==> StagesAllowed(fields, false)
  {
    assert FieldSays(STAGES[PROBE_INDEX], fields, d.stages[PROBE_INDEX]);
    assert FieldSays(STAGES[DECISION_INDEX], fields, d.stages[DECISION_INDEX]);
    AllowedExactly(d, fields, false);
  }

  /** Decoding an object with a version gives exactly what the object says, or fails. */
  lemma VersionedExactly(
    fields: map<string, Json>, size: Json -> nat, mentionsMissing: Json -> bool, d: IngestData)
    requires "version" in fields
    ensures Decode(Obj(fields), size, mentionsMissing) == Ok(d) <==>
      size(Obj(fields)) <= MAX_BYTES && VersionedSays(fields, d)
  {
    if fields["version"] == Int(1) {
      FromValueExactly(fields, d);
      if FromValue(fields) == Some(d) { VersionedAllowed(fields, d); }
    }
  }

  lemma SourcePartExactly(fields: map<string, Json>, part: map<string, Json>)
    ensures LegacySource(fields) == Some(part) <==> SourcePart(fields, part)
  {
    assert (map k | k in fields && k !in Names(STAGES) :: fields[k]) == fields - Names(STAGES);
  }

  /** So does decoding an early object. */
  lemma LegacyExactly(fields: map<string, Json>, size: Json -> nat, mentionsMissing: Json -> bool, d: IngestData)
    requires "version" !in fields
    ensures Decode(Obj(fields), size, mentionsMissing) == Ok(d) <==>
      size(Obj(fields)) <= MAX_BYTES && LegacySays(fields, mentionsMissing, d)
  {
    DecodeLegacyExactly(fields, mentionsMissing, d);
  }

  lemma DecodeLegacyExactly(fields: map<string, Json>, mentionsMissing: Json -> bool, d: IngestData)
    ensures DecodeLegacy(fields, mentionsMissing) == Ok(d) <==> LegacySays(fields, mentionsMissing, d)
  {
    if LegacySource(fields).Some? {
      WithPart(fields, LegacySource(fields).value, mentionsMissing, d);
    } else {
      WithoutPart(fields, mentionsMissing, d);
    }
  }

  lemma WithPart(
    fields: map<string, Json>, part: map<string, Json>, mentionsMissing: Json -> bool, d: IngestData)
    requires LegacySource(fields) == Some(part)
    ensures DecodeLegacy(fields, mentionsMissing) == Ok(d) <==> LegacySays(fields, mentionsMissing, d)
  {
    SourcePartExactly(fields, part);
    SaysThroughPart(fields, part, mentionsMissing, d);
    SourceExactly(part, d.source);
    if SourceSays(part, d.source) { LegacyFromSource(fields, part, mentionsMissing, d); }
  }

  lemma WithoutPart(fields: map<string, Json>, mentionsMissing: Json -> bool, d: IngestData)
    requires LegacySource(fields).None?
    ensures DecodeLegacy(fields, mentionsMissing).Err? && !LegacySays(fields, mentionsMissing, d)
  {
    forall part ensures !SourcePart(fields, part) { SourcePartExactly(fields, part); }
  }

  lemma SaysThroughPart(
    fields: map<string, Json>, part: map<string, Json>, mentionsMissing: Json -> bool, d: IngestData)
    requires SourcePart(fields, part)
    ensures LegacySays(fields, mentionsMissing, d) <==>
      SourceSays(part, d.source) && LegacyParts(fields, mentionsMissing, d) && StagesAllowed(fields, true)
  {}

  /** Once the source is read. */
  lemma LegacyFromSource(
    fields: map<string, Json>, part: map<string, Json>, mentionsMissing: Json -> bool, d: IngestData)
    requires LegacySource(fields) == Some(part) && DecodeSource(part) == Some(d.source)
    requires d.source.extensions.Keys !! Names(SOURCE)
    ensures DecodeLegacy(fields, mentionsMissing) == Ok(d) <==>
      LegacyParts(fields, mentionsMissing, d) && StagesAllowed(fields, true)
  {
    ExtensionsAre(fields);
    if |d.stages| == |STAGES| { StagesExactly(fields, d.source, mentionsMissing, d.stages); }
    if LegacyParts(fields, mentionsMissing, d) { LegacyAllowed(fields, mentionsMissing, d); }
  }

  /** Everything but the checks after decoding. */
  ghost predicate LegacyParts(fields: map<string, Json>, mentionsMissing: Json -> bool, d: IngestData) {
    && d.version == 1 && d.source.extensions.Keys !! Names(SOURCE) && |d.stages| == |STAGES|
    && (forall n :: 0 <= n < |STAGES| ==> StageSays(n, fields, d.source, mentionsMissing, d.stages[n]))
    && d.extensions == if "source" in fields then fields - EnvelopeKeys() else map[]
  }

  lemma LegacyAllowed(fields: map<string, Json>, mentionsMissing: Json -> bool, d: IngestData)
    requires LegacyParts(fields, mentionsMissing, d)
    ensures Validate(d).None? <==> StagesAllowed(fields, true)
  {
    assert StageSays(PROBE_INDEX, fields, d.source, mentionsMissing, d.stages[PROBE_INDEX]);
    assert StageSays(DECISION_INDEX, fields, d.source, mentionsMissing, d.stages[DECISION_INDEX]);
    AllowedExactly(d, fields, true);
  }

  /** What is written for an envelope says the envelope again, with no key for an absent stage. */
  lemma WrittenSays(d: IngestData)
    requires Typed(d) && Validate(d).None?
    ensures var out := ToValue(d).fields;
      && FieldsSay(STAGES, out, d.stages)
      && "source" in out && out["source"].Obj? && SourceSays(out["source"].fields, d.source)
      && forall i :: 0 <= i < |STAGES| ==> (STAGES[i].name in out <==> d.stages[i] != Absent)
  {
    var out := ToValue(d).fields;
    ValidStagesFit(d);
    StagesRoundTrip(d);
    FieldsDecodeExactly(STAGES, out, d.stages);
    SourceRoundTrip(d.source);
    SourceExactly(out["source"].fields, d.source);
    forall i | 0 <= i < |STAGES| ensures STAGES[i].name in out <==> d.stages[i] != Absent { StageWritten(d, i); }
  }

  lemma StageWritten(d: IngestData, i: nat)
    requires |d.stages| == |STAGES| && |d.source.values| == |SOURCE| && Validate(d).None? && i < |STAGES|
    ensures STAGES[i].name in ToValue(d).fields <==> d.stages[i] != Absent
  {
    StagesAreWellFormed();
    assert STAGES[i].name in Names(STAGES) && STAGES[i].presence == Omitted;
    assert forall k :: k in d.extensions ==> !IsEnvelopeKey(k);
    WrittenNames(STAGES, d.stages, d.extensions, i);
  }

  /** The source part of an early object as the decoder finds it. */
  ghost predicate SameSource(fields: map<string, Json>, written: map<string, Json>, source: Source) {
    SourceSays(written, source) && exists part :: SourcePart(fields, part) && SourceSays(part, source)
  }

  /**
    From an early object that is read to the object that is written, every stage key stays or stays away,
    and says the same in both; only an inspection that had to be filled in says more than before. The named
    keys of the source say the same in both as well.
  */
  lemma NamedKeysSurvive(fields: map<string, Json>, size: Json -> nat, mentionsMissing: Json -> bool)
    requires "version" !in fields && Decode(Obj(fields), size, mentionsMissing).Ok?
    ensures var d := Decode(Obj(fields), size, mentionsMissing).value; var out := ToValue(d).fields;
      && (forall i :: 0 <= i < |STAGES| ==> (STAGES[i].name in fields <==> STAGES[i].name in out))
      && (forall i :: 0 <= i < |STAGES| && STAGES[i].name in fields ==>
            && STAGES[i].name in out && Says(STAGES[i].kind, out[STAGES[i].name], d.stages[i])
            && StageSays(i, fields, d.source, mentionsMissing, d.stages[i])
            && (i > 0 ==> Says(STAGES[i].kind, fields[STAGES[i].name], d.stages[i])))
      && "source" in out && out["source"].Obj? && SameSource(fields, out["source"].fields, d.source)
  {
    var d := Decode(Obj(fields), size, mentionsMissing).value;
    var out := ToValue(d).fields;
    LegacyExactly(fields, size, mentionsMissing, d);
    DecodedIsTyped(Obj(fields), size, mentionsMissing);
    WrittenSays(d);
    forall i | 0 <= i < |STAGES|
      ensures STAGES[i].name in fields <==> STAGES[i].name in out
      ensures STAGES[i].name in fields ==> Says(STAGES[i].kind, out[STAGES[i].name], d.stages[i])
    {
      StageSurvives(i, fields, out, d.source, mentionsMissing, d.stages[i]);
    }
  }

  lemma StageSurvives(
    i: nat, fields: map<string, Json>, out: map<string, Json>, source: Source, mentionsMissing: Json -> bool, v: Value)
    requires i < |STAGES| && StageSays(i, fields, source, mentionsMissing, v)
    requires FieldSays(STAGES[i], out, v) && (STAGES[i].name in out <==> v != Absent)
    ensures STAGES[i].name in fields <==> STAGES[i].name in out
    ensures STAGES[i].name in fields ==> Says(STAGES[i].kind, out[STAGES[i].name], v)
  {
    assert STAGES[i].presence == Omitted;
  }

  /** A bare URL is the source's URL and nothing else. */
  lemma BareUrlIsKept(fields: map<string, Json>, size: Json -> nat, mentionsMissing: Json -> bool)
    requires "version" !in fields && "source" in fields && fields["source"].Str?
    requires Decode(Obj(fields), size, mentionsMissing).Ok?
    ensures Decode(Obj(fields), size, mentionsMissing).value.source.values[0] == TextValue(fields["source"].s)
    ensures Decode(Obj(fields), size, mentionsMissing).value.source.extensions == map[]
  {
    var d := Decode(Obj(fields), size, mentionsMissing).value;
    LegacyExactly(fields, size, mentionsMissing, d);
    var part :| SourcePart(fields, part) && SourceSays(part, d.source);
    assert SOURCE[0].name == "url" && "url" in Names(SOURCE);
    assert FieldSays(SOURCE[0], part, d.source.values[0]);
  }

  /** Which refusal is reported: everything that is neither too large nor badly versioned is malformed. */
  lemma RefusalsAreTold(value: Json, size: Json -> nat, mentionsMissing: Json -> bool)
    ensures var r := Decode(value, size, mentionsMissing);
      && (r == Err(TooLarge) <==> size(value) > MAX_BYTES)
      && (r == Err(NotAnObject) <==> size(value) <= MAX_BYTES && !value.Obj?)
      && (r == Err(InvalidVersion) <==>
            && size(value) <= MAX_BYTES && value.Obj? && "version" in value.fields
            && forall n :: 0 <= n <= U64_MAX ==> value.fields["version"] != Int(n))
      && (forall n :: r == Err(UnsupportedVersion(n)) <==>
            && size(value) <= MAX_BYTES && value.Obj? && "version" in value.fields
            && value.fields["version"] == Int(n) && 0 <= n <= U64_MAX && n != 1)
  {
    if value.Obj? {
      LegacyRefusal(value.fields, mentionsMissing);
      VersionedRefusal(value.fields);
    }
  }

  lemma LegacyRefusal(fields: map<string, Json>, mentionsMissing: Json -> bool)
    ensures DecodeLegacy(fields, mentionsMissing).Ok? || DecodeLegacy(fields, mentionsMissing) == Err(Malformed)
  {}

  lemma VersionedRefusal(fields: map<string, Json>)
    ensures FromValue(fields).Some? && FromValue(fields).value.version == 1 ==>
      Validated(FromValue(fields).value).Ok? || Validated(FromValue(fields).value) == Err(Malformed)
  {}
}
