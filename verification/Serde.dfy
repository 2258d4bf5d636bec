/**
  JSON values and the derived record codec the ingest envelope is built on.

  A record is described by a schema, the way serde derives a codec from a struct: each field has a
  name, a kind and a rule for absent values. A flattened record also keeps every key that its schema
  does not name.
*/
module Serde {
  import opened Prelude
  import Chars = Text

  datatype Json =
    | Null
    | Bool(b: bool)
    | Int(i: int)
    | Float(bits: nat)
    | Str(s: string)
    | Arr(items: seq<Json>)
    | Obj(fields: map<string, Json>)

  datatype Kind =
    | Text
    | TextList
    | Integer(low: int, high: int)
    | Choice(names: set<string>)
    | Uuid
    | Any
    | Record(schema: seq<Field>)

  /** What happens to an absent value: the field must be there, is written as null, is left out, or
      (for lists) is left out when empty. */
  datatype Presence = Required | NullWhenAbsent | Omitted | OmittedWhenEmpty

  datatype Field = Field(name: string, kind: Kind, presence: Presence)

  datatype Value =
    | Absent
    | TextValue(s: string)
    | ListValue(items: seq<string>)
    | IntValue(i: int)
    | ChoiceValue(name: string)
    | UuidValue(text: string)
    | AnyValue(json: Json)
    | RecordValue(values: seq<Value>)

  // ---------------------------------------------------------------- leaves

  predicate HyphenAt(i: int) { i == 8 || i == 13 || i == 18 || i == 23 }

  predicate IsHyphenatedUuid(s: string) {
    |s| == 36 && forall i :: 0 <= i < 36 ==> if HyphenAt(i) then s[i] == '-' else Chars.HexValue(s[i]).Some?
  }

  predicate IsCanonicalUuid(s: string) {
    IsHyphenatedUuid(s) && forall i :: 0 <= i < 36 ==> Chars.LowerAscii(s[i]) == s[i]
  }

  function CanonicalUuid(s: string): (r: string)
    requires IsHyphenatedUuid(s)
    ensures IsCanonicalUuid(r)
    ensures IsCanonicalUuid(s) ==> r == s
  {
    seq(36, i requires 0 <= i < 36 => if HyphenAt(i) then '-' else Chars.LowerAscii(s[i]))
  }

  function EncodeList(items: seq<string>): seq<Json> {
    seq(|items|, i requires 0 <= i < |items| => Str(items[i]))
  }

  function DecodeList(items: seq<Json>): (r: Option<seq<string>>)
    ensures r.Some? <==> forall i :: 0 <= i < |items| ==> items[i].Str?
    ensures r.Some? ==> EncodeList(r.value) == items
  {
    if forall i :: 0 <= i < |items| ==> items[i].Str?
    then Some(seq(|items|, i requires 0 <= i < |items| => items[i].s))
    else None
  }

  // ---------------------------------------------------------------- records

  function Names(schema: seq<Field>): set<string> { set i | 0 <= i < |schema| :: schema[i].name }

  function EncodeValue(kind: Kind, v: Value): Json
    decreases kind, 1
  {
    match v
    case Absent => Null
    case TextValue(s) => Str(s)
    case ListValue(items) => Arr(EncodeList(items))
    case IntValue(i) => Int(i)
    case ChoiceValue(name) => Str(name)
    case UuidValue(text) => Str(text)
    case AnyValue(json) => json
    case RecordValue(values) =>
      if kind.Record? && |values| == |kind.schema| then Obj(EncodeFields(kind.schema, values, map[])) else Null
  }

  /** The fields of a record, on top of the keys it carries besides. */
  function EncodeFields(schema: seq<Field>, values: seq<Value>, others: map<string, Json>): map<string, Json>
    requires |schema| == |values|
    decreases schema, 0
  {
    if schema == [] then others
    else
      var rest := EncodeFields(schema[1..], values[1..], others);
      if Skipped(schema[0], values[0]) then rest
      else rest[schema[0].name := EncodeValue(schema[0].kind, values[0])]
  }

  predicate Skipped(field: Field, v: Value) {
    (field.presence.Omitted? && v.Absent?) || (field.presence.OmittedWhenEmpty? && v == ListValue([]))
  }

  function DecodeValue(kind: Kind, j: Json): Option<Value>
    decreases kind, 1
  {
    match kind
    case Text => if j.Str? then Some(TextValue(j.s)) else None
    case TextList =>
      if j.Arr? && DecodeList(j.items).Some? then Some(ListValue(DecodeList(j.items).value)) else None
    case Integer(low, high) => if j.Int? && low <= j.i <= high then Some(IntValue(j.i)) else None
    case Choice(names) => if j.Str? && j.s in names then Some(ChoiceValue(j.s)) else None
    case Uuid => if j.Str? && IsHyphenatedUuid(j.s) then Some(UuidValue(CanonicalUuid(j.s))) else None
    case Any => Some(AnyValue(j))
    case Record(schema) =>
      if !j.Obj? then None
      else match DecodeFields(schema, j.fields)
        case None => None
        case Some(values) => Some(RecordValue(values))
  }

  function DecodeField(field: Field, fields: map<string, Json>): Option<Value>
    decreases field.kind, 2
  {
    if field.name in fields then
      if fields[field.name].Null? && (field.presence.Omitted? || field.presence.NullWhenAbsent?) then Some(Absent)
      else DecodeValue(field.kind, fields[field.name])
    else match field.presence
      case Required => None
      case OmittedWhenEmpty => Some(ListValue([]))
      case _ => Some(Absent)
  }

  function DecodeFields(schema: seq<Field>, fields: map<string, Json>): (r: Option<seq<Value>>)
    ensures r.Some? ==> |r.value| == |schema|
    decreases schema, 0
  {
    if schema == [] then Some([])
    else
      match DecodeField(schema[0], fields)
      case None => None
      case Some(v) =>
        match DecodeFields(schema[1..], fields)
        case None => None
        case Some(rest) => Some([v] + rest)
  }

  /** The keys a flattened record keeps besides its own. */
  function Unnamed(schema: seq<Field>, fields: map<string, Json>): map<string, Json> {
    map k | k in fields && k !in Names(schema) :: fields[k]
  }

  // ---------------------------------------------------------------- typing

  ghost predicate HasKind(kind: Kind, v: Value)
    decreases kind, 1
  {
    match kind
    case Text => v.TextValue?
    case TextList => v.ListValue?
    case Integer(low, high) => v.IntValue? && low <= v.i <= high
    case Choice(names) => v.ChoiceValue? && v.name in names
    case Uuid => v.UuidValue? && IsCanonicalUuid(v.text)
    case Any => v.AnyValue?
    case Record(schema) => v.RecordValue? && Fits(schema, v.values)
  }

  /** A present optional value must not look like an absent one. */
  ghost predicate FieldFits(field: Field, v: Value)
    decreases field.kind, 2
  {
    match field.presence
    case Required => HasKind(field.kind, v)
    case OmittedWhenEmpty => field.kind.TextList? && HasKind(field.kind, v)
    case _ => v.Absent? || (HasKind(field.kind, v) && v != AnyValue(Null))
  }

  ghost predicate Fits(schema: seq<Field>, values: seq<Value>)
    decreases schema, 0
  {
    && |schema| == |values|
    && (schema != [] ==> FieldFits(schema[0], values[0]) && Fits(schema[1..], values[1..]))
  }

  /** Field names are distinct, at every depth. */
  ghost predicate WellFormed(schema: seq<Field>)
    decreases schema, 0
  {
    schema != [] ==>
      && schema[0].name !in Names(schema[1..])
      && (schema[0].presence.OmittedWhenEmpty? ==> schema[0].kind.TextList?)
      && (schema[0].kind.Record? ==> WellFormed(schema[0].kind.schema))
      && WellFormed(schema[1..])
  }

  // ---------------------------------------------------------------- laws

  lemma NamesTail(schema: seq<Field>)
    requires schema != []
    ensures Names(schema) == {schema[0].name} + Names(schema[1..])
  {
    forall n | n in Names(schema) ensures n in {schema[0].name} + Names(schema[1..]) {
      var i :| 0 <= i < |schema| && schema[i].name == n;
      if i > 0 { assert schema[1..][i - 1].name == n; }
    }
    forall n | n in Names(schema[1..]) ensures n in Names(schema) {
      var i :| 0 <= i < |schema[1..]| && schema[1..][i].name == n;
      assert schema[i + 1].name == n;
    }
    assert schema[0].name in Names(schema);
  }

  /** Keys outside the schema are written through unchanged. */
  lemma {:induction false} EncodeKeepsOthers(
    schema: seq<Field>, values: seq<Value>, others: map<string, Json>, k: string)
    requires |schema| == |values| && k !in Names(schema)
    ensures k in EncodeFields(schema, values, others) <==> k in others
    ensures k in others ==> EncodeFields(schema, values, others)[k] == others[k]
    decreases |schema|
  {
    if schema != [] {
      NamesTail(schema);
      EncodeKeepsOthers(schema[1..], values[1..], others, k);
    }
  }

  lemma UnnamedEncode(schema: seq<Field>, values: seq<Value>, others: map<string, Json>)
    requires |schema| == |values| && others.Keys !! Names(schema)
    ensures Unnamed(schema, EncodeFields(schema, values, others)) == others
  {
    var m := EncodeFields(schema, values, others);
    forall k | k !in Names(schema) ensures (k in m <==> k in others) && (k in others ==> m[k] == others[k]) {
      EncodeKeepsOthers(schema, values, others, k);
    }
  }

  /** Decoding looks only at the keys the schema names. */
  lemma {:induction false} DecodeLooksAtNames(schema: seq<Field>, a: map<string, Json>, b: map<string, Json>)
    requires forall k :: k in Names(schema) ==> (k in a <==> k in b) && (k in a ==> a[k] == b[k])
    ensures DecodeFields(schema, a) == DecodeFields(schema, b)
    decreases |schema|
  {
    if schema != [] {
      NamesTail(schema);
      assert DecodeField(schema[0], a) == DecodeField(schema[0], b);
      DecodeLooksAtNames(schema[1..], a, b);
    }
  }

  lemma {:induction false} ValueRoundTrip(kind: Kind, v: Value)
    requires HasKind(kind, v) && (kind.Record? ==> WellFormed(kind.schema))
    ensures DecodeValue(kind, EncodeValue(kind, v)) == Some(v)
    ensures EncodeValue(kind, v).Null? ==> v == AnyValue(Null)
    decreases kind, 1
  {
    match kind
    case Record(schema) =>
      FitsLength(schema, v.values);
      FieldsRoundTrip(schema, v.values, map[]);
    case TextList =>
      var items := EncodeList(v.items);
      assert DecodeList(items).value == v.items;
    case _ =>
  }

  lemma FitsLength(schema: seq<Field>, values: seq<Value>)
    requires Fits(schema, values)
    ensures |schema| == |values|
  {}

  lemma FieldRoundTrip(field: Field, v: Value, fields: map<string, Json>)
    requires FieldFits(field, v)
    requires HasKind(field.kind, v) ==>
               && DecodeValue(field.kind, EncodeValue(field.kind, v)) == Some(v)
               && (EncodeValue(field.kind, v).Null? ==> v == AnyValue(Null))
    requires Skipped(field, v) ==> field.name !in fields
    requires !Skipped(field, v) ==> field.name in fields && fields[field.name] == EncodeValue(field.kind, v)
    ensures DecodeField(field, fields) == Some(v)
  {
    match field.presence
    case Required =>
    case OmittedWhenEmpty =>
    case Omitted =>
    case NullWhenAbsent =>
  }

  /** Writing a record and reading it back gives the same values. */
  lemma {:induction false} FieldsRoundTrip(schema: seq<Field>, values: seq<Value>, others: map<string, Json>)
    requires WellFormed(schema) && Fits(schema, values) && others.Keys !! Names(schema)
    ensures |schema| == |values|
    ensures DecodeFields(schema, EncodeFields(schema, values, others)) == Some(values)
    decreases schema, 0
  {
    if schema != [] {
      NamesTail(schema);
      var field, v := schema[0], values[0];
      var rest := EncodeFields(schema[1..], values[1..], others);
      var all := EncodeFields(schema, values, others);
      FieldsRoundTrip(schema[1..], values[1..], others);
      EncodeKeepsOthers(schema[1..], values[1..], others, field.name);
      DecodeLooksAtNames(schema[1..], rest, all);
      if HasKind(field.kind, v) { ValueRoundTrip(field.kind, v); }
      FieldRoundTrip(field, v, all);
      assert values == [v] + values[1..];
    }
  }

  lemma {:induction false} DecodedValueHasKind(kind: Kind, j: Json)
    requires DecodeValue(kind, j).Some? && (kind.Record? ==> WellFormed(kind.schema))
    ensures HasKind(kind, DecodeValue(kind, j).value)
    ensures DecodeValue(kind, j) == Some(AnyValue(Null)) ==> j.Null?
    decreases kind, 1
  {
    match kind
    case Record(schema) => DecodedFieldsFit(schema, j.fields);
    case _ =>
  }

  /** Whatever decodes is well typed. */
  lemma {:induction false} DecodedFieldsFit(schema: seq<Field>, fields: map<string, Json>)
    requires DecodeFields(schema, fields).Some? && WellFormed(schema)
    ensures Fits(schema, DecodeFields(schema, fields).value)
    decreases schema, 0
  {
    if schema != [] {
      var v := DecodeField(schema[0], fields).value;
      if schema[0].name in fields && DecodeValue(schema[0].kind, fields[schema[0].name]).Some? {
        DecodedValueHasKind(schema[0].kind, fields[schema[0].name]);
      }
      DecodedFieldsFit(schema[1..], fields);
      assert DecodeFields(schema, fields).value[1..] == DecodeFields(schema[1..], fields).value;
    }
  }

  // ---------------------------------------------------------------- what a JSON value says

  /** The JSON value says this value of the kind; keys that a record does not name say nothing. */
  ghost predicate Says(kind: Kind, j: Json, v: Value)
    decreases kind, 1
  {
    match kind
    case Text => v.TextValue? && j == Str(v.s)
    case TextList => v.ListValue? && j.Arr? && SameTexts(j.items, v.items)
    case Integer(low, high) => v.IntValue? && low <= v.i <= high && j == Int(v.i)
    case Choice(names) => v.ChoiceValue? && v.name in names && j == Str(v.name)
    case Uuid => v.UuidValue? && j.Str? && SameUuid(j.s, v.text)
    case Any => v == AnyValue(j)
    case Record(schema) =>
      && j.Obj? && v.RecordValue? && |v.values| == |schema|
      && forall i :: 0 <= i < |schema| ==> FieldSays(schema[i], j.fields, v.values[i])
  }

  ghost predicate SameTexts(items: seq<Json>, texts: seq<string>) {
    |items| == |texts| && forall i :: 0 <= i < |items| ==> items[i] == Str(texts[i])
  }

  /** The hyphenated text in either case, and its lower-case form. */
  ghost predicate SameUuid(s: string, canonical: string) {
    && |s| == 36 == |canonical|
    && forall i :: 0 <= i < 36 ==>
         if HyphenAt(i) then s[i] == '-' == canonical[i]
         else Chars.HexValue(s[i]).Some? && canonical[i] == Chars.LowerAscii(s[i])
  }

  /** The object says this value of the field: a missing key stands for the absent value unless the field
      is required, and so does null where the value may be absent. */
  ghost predicate FieldSays(field: Field, fields: map<string, Json>, v: Value)
    decreases field.kind, 2
  {
    if field.name !in fields then
      match field.presence
      case Required => false
      case OmittedWhenEmpty => v == ListValue([])
      case _ => v == Absent
    else if fields[field.name] == Null && (field.presence == Omitted || field.presence == NullWhenAbsent) then
      v == Absent
    else
      Says(field.kind, fields[field.name], v)
  }

  ghost predicate FieldsSay(schema: seq<Field>, fields: map<string, Json>, values: seq<Value>) {
    |values| == |schema| && forall i :: 0 <= i < |schema| ==> FieldSays(schema[i], fields, values[i])
  }

  /** Decoding gives what is said, and fails exactly when nothing of the kind is. */
  lemma {:induction false} DecodesExactly(kind: Kind, j: Json, v: Value)
    ensures DecodeValue(kind, j) == Some(v) <==> Says(kind, j, v)
    decreases kind, 1
  {
    match kind
    case Record(schema) => if j.Obj? && v.RecordValue? { FieldsDecodeExactly(schema, j.fields, v.values); }
    case TextList =>
      if j.Arr? && DecodeList(j.items).Some? && v.ListValue? {
        assert EncodeList(DecodeList(j.items).value) == j.items;
        if Says(kind, j, v) { assert DecodeList(j.items).value == v.items; }
      }
    case Uuid =>
      if j.Str? && IsHyphenatedUuid(j.s) && v.UuidValue? && SameUuid(j.s, v.text) {
        assert CanonicalUuid(j.s) == v.text;
      }
    case _ =>
  }

  lemma {:induction false} FieldDecodesExactly(field: Field, fields: map<string, Json>, v: Value)
    ensures DecodeField(field, fields) == Some(v) <==> FieldSays(field, fields, v)
    decreases field.kind, 2
  {
    if field.name in fields { DecodesExactly(field.kind, fields[field.name], v); }
  }

  lemma {:induction false} FieldsDecodeExactly(schema: seq<Field>, fields: map<string, Json>, values: seq<Value>)
    ensures DecodeFields(schema, fields) == Some(values) <==> FieldsSay(schema, fields, values)
    decreases schema, 0
  {
    if schema != [] && values != [] {
      FieldDecodesExactly(schema[0], fields, values[0]);
      FieldsDecodeExactly(schema[1..], fields, values[1..]);
      SayTail(schema, fields, values);
      assert values == [values[0]] + values[1..];
    }
  }

  lemma SayTail(schema: seq<Field>, fields: map<string, Json>, values: seq<Value>)
    requires schema != [] && values != []
    ensures FieldsSay(schema, fields, values) <==>
      FieldSays(schema[0], fields, values[0]) && FieldsSay(schema[1..], fields, values[1..])
  {
    if FieldSays(schema[0], fields, values[0]) && FieldsSay(schema[1..], fields, values[1..]) {
      forall i | 0 <= i < |schema| ensures FieldSays(schema[i], fields, values[i]) {
        if i > 0 { assert FieldSays(schema[1..][i - 1], fields, values[1..][i - 1]); }
      }
    }
  }

  /** The keys that are written for the fields of a record. */
  lemma {:induction false} WrittenNames(schema: seq<Field>, values: seq<Value>, others: map<string, Json>, i: nat)
    requires WellFormed(schema) && |schema| == |values| && others.Keys !! Names(schema) && i < |schema|
    ensures schema[i].name in EncodeFields(schema, values, others) <==> !Skipped(schema[i], values[i])
    decreases |schema|
  {
    NamesTail(schema);
    if i == 0 {
      EncodeKeepsOthers(schema[1..], values[1..], others, schema[0].name);
    } else {
      assert schema[1..][i - 1].name in Names(schema[1..]);
      WrittenNames(schema[1..], values[1..], others, i - 1);
    }
  }
}
