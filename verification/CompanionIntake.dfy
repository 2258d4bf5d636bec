/**
  What the browser companion validates (apps/companion/src/lib.rs) and what the inbox validates again
  behind it (crates/inbox/src/lib.rs). Parsing a URL and an RFC 3339 instant are arbitrary functions
  that both sides share.
*/
module CompanionIntake {
  import opened Prelude
  import opened Text

  const MAX_ACTION_ID_CHARS := 128
  const MAX_URL_CHARS := 4096
  const MAX_PAGE_TITLE_CHARS := 512
  const MAX_DESCRIPTION_CHARS := 2048
  const MAX_REQUESTED_PUBLISH_AT_CHARS := 64
  const MAX_POST_CAPTION_CHARS := 1024
  const MAX_TAGS := 32
  const MAX_TAG_CHARS := 64

  const MAX_IDEMPOTENCY_KEY_LENGTH := 255
  const MAX_REQUESTED_POST_CAPTION_LENGTH := 1024

  datatype Action = Save | Queue | PostNow

  /** What the checks look at in a parsed URL; `rewrite` is the rest of its normalization. */
  datatype Url = Url(scheme: string, hasHost: bool, hasUsername: bool, hasPassword: bool)

  datatype Parsers = Parsers(url: string -> Option<Url>, rewrite: string -> string, instant: string -> Option<int>)

  datatype Submission = Submission(
    actionId: string, url: string, pageUrl: Option<string>, pageTitle: Option<string>,
    description: Option<string>, tags: seq<string>, action: Option<Action>, publishAt: Option<string>,
    postCaption: Option<string>)

  // ---------------------------------------------------------------- the companion

  predicate HasControl(s: string) { exists i :: 0 <= i < |s| && IsControl(s[i]) }

  predicate IsLayout(c: char) { c == '\n' || c == '\r' || c == '\t' }

  /** A control character other than a line break or a tab. */
  predicate HasBadControl(s: string) { exists i :: 0 <= i < |s| && IsControl(s[i]) && !IsLayout(s[i]) }

  /** bounded_text. */
  function BoundedText(value: string, max: nat): Result<string, string> {
    var v := Trim(value);
    if v == [] || |v| > max || HasControl(v) then Err("bounded_text") else Ok(v)
  }

  function OptionalBounded(value: Option<string>, max: nat): Result<Option<string>, string> {
    match value
    case None => Ok(None)
    case Some(s) => var v :- BoundedText(s, max); Ok(Some(v))
  }

  /** optional_multiline_text. */
  function OptionalMultiline(value: Option<string>, max: nat): Result<Option<string>, string> {
    match value
    case None => Ok(None)
    case Some(s) =>
      var v := Trim(s);
      if v == [] then Ok(None)
      else if |v| > max || HasBadControl(v) then Err("multiline_text")
      else Ok(Some(v))
  }

  predicate IsWebUrl(url: Url) {
    (url.scheme == "http" || url.scheme == "https") && url.hasHost && !url.hasUsername && !url.hasPassword
  }

  /** validate_url. */
  function ValidUrl(value: string, p: Parsers, field: string): Result<string, string> {
    var v :- BoundedText(value, MAX_URL_CHARS);
    var parsed := p.url(v);
    if parsed.None? || !IsWebUrl(parsed.value) then Err(field) else Ok(v)
  }

  function OptionalUrl(value: Option<string>, p: Parsers, field: string): Result<Option<string>, string> {
    match value
    case None => Ok(None)
    case Some(s) => var v :- ValidUrl(s, p, field); Ok(Some(v))
  }

  predicate IsAscii(c: char) { c as int < 128 }

  predicate IsAsciiWhitespace(c: char) { c == ' ' || c == '\t' || c == '\n' || c as int == 0x0c || c == '\r' }

  function ValidActionId(value: string): Result<string, string> {
    var v :- BoundedText(value, MAX_ACTION_ID_CHARS);
    if exists i :: 0 <= i < |v| && (!IsAscii(v[i]) || IsAsciiWhitespace(v[i])) then Err("action_id") else Ok(v)
  }

  function ValidPublishAt(value: Option<string>, p: Parsers): Result<Option<string>, string> {
    var v :- OptionalBounded(value, MAX_REQUESTED_PUBLISH_AT_CHARS);
    if v.Some? && p.instant(v.value).None? then Err("requested_publish_at") else Ok(v)
  }

  function ActionOf(action: Option<Action>): Action { if action.None? then Save else action.value }

  function CheckIntent(action: Action, publishAt: Option<string>, caption: Option<string>): Result<(), string> {
    match action
    case Save => if publishAt.Some? || caption.Some? then Err("save_intent_fields") else Ok(())
    case Queue => Ok(())
    case PostNow => if publishAt.Some? then Err("post_now_publish_at") else Ok(())
  }

  /** The tag loop after `done`: bounded, each kept once. */
  function ValidTags(done: seq<string>, tags: seq<string>): Result<seq<string>, string>
    decreases |tags|
  {
    if tags == [] then Ok(done)
    else
      var tag :- BoundedText(tags[0], MAX_TAG_CHARS);
      ValidTags(if tag in done then done else done + [tag], tags[1..])
  }

  /** validate_submission. */
  function Validated(s: Submission, p: Parsers): Result<Submission, string> {
    var actionId :- ValidActionId(s.actionId);
    var url :- ValidUrl(s.url, p, "url");
    var pageUrl :- OptionalUrl(s.pageUrl, p, "page_url");
    var pageTitle :- OptionalBounded(s.pageTitle, MAX_PAGE_TITLE_CHARS);
    var description :- OptionalMultiline(s.description, MAX_DESCRIPTION_CHARS);
    var publishAt :- ValidPublishAt(s.publishAt, p);
    var caption :- OptionalMultiline(s.postCaption, MAX_POST_CAPTION_CHARS);
    var _ :- CheckIntent(ActionOf(s.action), publishAt, caption);
    if |s.tags| > MAX_TAGS then Err("tags")
    else
      var tags :- ValidTags([], s.tags);
      Ok(Submission(actionId, url, pageUrl, pageTitle, description, tags, s.action, publishAt, caption))
  }

  /** The loop that builds the tags. */
  method BuildTags(tags: seq<string>) returns (r: Result<seq<string>, string>)
    ensures r == ValidTags([], tags)
  {
    var done: seq<string> := [];
    assert tags[0..] == tags;
    for i := 0 to |tags|
      invariant ValidTags([], tags) == ValidTags(done, tags[i..])
    {
      assert tags[i..][1..] == tags[i + 1..];
      var tag := BoundedText(tags[i], MAX_TAG_CHARS);
      if tag.Err? { return Err(tag.error); }
      if tag.value !in done { done := done + [tag.value]; }
    }
    r := Ok(done);
  }

  /** validate_submission rewrites the submission field by field. */
  method ValidateSubmission(submission: Submission, p: Parsers) returns (r: Result<Submission, string>)
    ensures r == Validated(submission, p)
    ensures forall t :: r == Ok(t) <==> AcceptedAs(submission, p, t)
  {
    r := RewriteSubmission(submission, p);
    forall t ensures r == Ok(t) <==> AcceptedAs(submission, p, t) { AcceptedExactly(submission, p, t); }
  }

  method RewriteSubmission(submission: Submission, p: Parsers) returns (r: Result<Submission, string>)
    ensures r == Validated(submission, p)
  {
    var s := submission;
    var actionId :- ValidActionId(s.actionId);
    s := s.(actionId := actionId);
    var url :- ValidUrl(s.url, p, "url");
    s := s.(url := url);
    var pageUrl :- OptionalUrl(s.pageUrl, p, "page_url");
    s := s.(pageUrl := pageUrl);
    var pageTitle :- OptionalBounded(s.pageTitle, MAX_PAGE_TITLE_CHARS);
    s := s.(pageTitle := pageTitle);
    var description :- OptionalMultiline(s.description, MAX_DESCRIPTION_CHARS);
    s := s.(description := description);
    var publishAt :- ValidPublishAt(s.publishAt, p);
    s := s.(publishAt := publishAt);
    var caption :- OptionalMultiline(s.postCaption, MAX_POST_CAPTION_CHARS);
    s := s.(postCaption := caption);
    var _ :- CheckIntent(ActionOf(s.action), s.publishAt, s.postCaption);
    if |s.tags| > MAX_TAGS { return Err("tags"); }
    var tags :- BuildTags(s.tags);
    s := s.(tags := tags);
    r := Ok(s);
  }

  // ---------------------------------------------------------------- the inbox

  datatype IngestError =
    | EmptyUrl | InvalidUrl | UnsupportedScheme | MissingHost | CredentialsNotAllowed
    | EmptyIdempotencyKey | IdempotencyKeyTooLong | EmptyTag
    | InvalidRequestedPublishAt | RequestedPublishAtForbidden | RequestedPublishAtForbiddenForPostNow
    | RequestedPublishAtNotFuture | RequestedPostCaptionForbidden | RequestedPostCaptionTooLong
    | RequestedPostCaptionControlCharacter

  datatype Input = Input(
    sourceUrl: string, pageUrl: Option<string>, pageTitle: Option<string>, description: Option<string>,
    tags: seq<string>, action: Action, publishAt: Option<int>, postCaption: Option<string>, key: Option<string>)

  datatype Ingest = Ingest(
    originalUrl: string, normalizedUrl: string, pageUrl: Option<string>, pageTitle: Option<string>,
    description: Option<string>, tags: seq<string>, action: Action, publishAt: Option<int>,
    postCaption: Option<string>, key: Option<string>)

  /** normalize_url, up to the rewriting of an accepted URL. */
  function NormalizeUrl(value: string, p: Parsers): Result<string, IngestError> {
    var v := Trim(value);
    if v == [] then Err(EmptyUrl)
    else
      var parsed := p.url(v);
      if parsed.None? then Err(InvalidUrl)
      else
        var url := parsed.value;
        var scheme := ToAsciiLowercase(url.scheme);
        if scheme != "http" && scheme != "https" then Err(UnsupportedScheme)
        else if !url.hasHost then Err(MissingHost)
        else if url.hasUsername || url.hasPassword then Err(CredentialsNotAllowed)
        else Ok(p.rewrite(v))
  }

  function NormalizeOptionalUrl(value: Option<string>, p: Parsers): Result<Option<string>, IngestError> {
    match value
    case None => Ok(None)
    case Some(s) => var v :- NormalizeUrl(s, p); Ok(Some(v))
  }

  /** normalize_idempotency_key. */
  function NormalizeKey(value: Option<string>): Result<Option<string>, IngestError> {
    match value
    case None => Ok(None)
    case Some(s) =>
      var v := Trim(s);
      if v == [] then Err(EmptyIdempotencyKey)
      else if |v| > MAX_IDEMPOTENCY_KEY_LENGTH then Err(IdempotencyKeyTooLong)
      else Ok(Some(v))
  }

  /** normalize_optional_text. */
  function NormalizeText(value: Option<string>): Option<string> {
    if value.None? || Trim(value.value) == [] then None else Some(Trim(value.value))
  }

  function NormalizeTags(done: seq<string>, tags: seq<string>): Result<seq<string>, IngestError>
    decreases |tags|
  {
    if tags == [] then Ok(done)
    else
      var tag := ToAsciiLowercase(Trim(tags[0]));
      if tag == [] then Err(EmptyTag)
      else NormalizeTags(if tag in done then done else done + [tag], tags[1..])
  }

  /** validate_requested_intent; `now` is the time when freshness is enforced. */
  function ValidateIntent(action: Action, publishAt: Option<int>, caption: Option<string>, now: Option<int>)
    : Result<(), IngestError>
  {
    if caption.Some? && |caption.value| > MAX_REQUESTED_POST_CAPTION_LENGTH then Err(RequestedPostCaptionTooLong)
    else if caption.Some? && HasBadControl(caption.value) then Err(RequestedPostCaptionControlCharacter)
    else
      match action
      case Save =>
        if publishAt.Some? then Err(RequestedPublishAtForbidden)
        else if caption.Some? then Err(RequestedPostCaptionForbidden)
        else Ok(())
      case Queue =>
        if now.Some? && publishAt.Some? && publishAt.value <= now.value
        then Err(RequestedPublishAtNotFuture) else Ok(())
      case PostNow =>
        if publishAt.Some? then Err(RequestedPublishAtForbiddenForPostNow) else Ok(())
  }

  /** try_new_inner. */
  function TryNew(input: Input, now: Option<int>, p: Parsers): Result<Ingest, IngestError> {
    var normalized :- NormalizeUrl(input.sourceUrl, p);
    var pageUrl :- NormalizeOptionalUrl(input.pageUrl, p);
    var key :- NormalizeKey(input.key);
    var tags :- NormalizeTags([], input.tags);
    var caption := NormalizeText(input.postCaption);
    var _ :- ValidateIntent(input.action, input.publishAt, caption, now);
    Ok(Ingest(Trim(input.sourceUrl), normalized, pageUrl, NormalizeText(input.pageTitle),
              NormalizeText(input.description), tags, input.action, input.publishAt, caption, key))
  }

  /** The loop that builds the tags. */
  method BuildSuppliedTags(tags: seq<string>) returns (r: Result<seq<string>, IngestError>)
    ensures r == NormalizeTags([], tags)
  {
    var done: seq<string> := [];
    assert tags[0..] == tags;
    for i := 0 to |tags|
      invariant NormalizeTags([], tags) == NormalizeTags(done, tags[i..])
    {
      assert tags[i..][1..] == tags[i + 1..];
      var tag := ToAsciiLowercase(Trim(tags[i]));
      if tag == [] { return Err(EmptyTag); }
      if tag !in done { done := done + [tag]; }
    }
    r := Ok(done);
  }

  /** try_new_inner. */
  method TryNewInner(input: Input, now: Option<int>, p: Parsers) returns (r: Result<Ingest, IngestError>)
    ensures r == TryNew(input, now, p)
    ensures forall ingest :: r == Ok(ingest) <==> BuiltAs(input, now, p, ingest)
  {
    r := BuildIngest(input, now, p);
    forall ingest ensures r == Ok(ingest) <==> BuiltAs(input, now, p, ingest) {
      BuiltExactly(input, now, p, ingest);
    }
  }

  method BuildIngest(input: Input, now: Option<int>, p: Parsers) returns (r: Result<Ingest, IngestError>)
    ensures r == TryNew(input, now, p)
  {
    var originalUrl := Trim(input.sourceUrl);
    var normalizedUrl :- NormalizeUrl(input.sourceUrl, p);
    var pageUrl :- NormalizeOptionalUrl(input.pageUrl, p);
    var key :- NormalizeKey(input.key);
    var tags :- BuildSuppliedTags(input.tags);
    var pageTitle, description := NormalizeText(input.pageTitle), NormalizeText(input.description);
    var caption := NormalizeText(input.postCaption);
    var _ :- ValidateIntent(input.action, input.publishAt, caption, now);
    r := Ok(Ingest(originalUrl, normalizedUrl, pageUrl, pageTitle, description, tags, input.action,
                   input.publishAt, caption, key));
  }

  // ---------------------------------------------------------------- between them

  const KEY_PREFIX := "companion:"

  /** What the companion sends on and the endpoint hands to the inbox. */
  function Forwarded(s: Submission, p: Parsers): Result<Input, IngestError> {
    if s.publishAt.Some? && p.instant(s.publishAt.value).None? then Err(InvalidRequestedPublishAt)
    else
      var publishAt := if s.publishAt.None? then None else p.instant(s.publishAt.value);
      Ok(Input(s.url, s.pageUrl, s.pageTitle, s.description, s.tags, ActionOf(s.action), publishAt, s.postCaption,
               Some(KEY_PREFIX + s.actionId)))
  }

  function Delivered(s: Submission, now: Option<int>, p: Parsers): Result<Ingest, IngestError> {
    var input :- Forwarded(s, p);
    TryNew(input, now, p)
  }

  // ---------------------------------------------------------------- idempotence

  lemma BoundedIsFixed(value: string, max: nat)
    requires BoundedText(value, max).Ok?
    ensures var v := BoundedText(value, max).value; v != [] && Trimmed(v) && |v| <= max && BoundedText(v, max) == Ok(v)
  {
    TrimIsTrimmed(value);
    TrimmedIsFixed(Trim(value));
  }

  lemma OptionalBoundedIsFixed(value: Option<string>, max: nat)
    requires OptionalBounded(value, max).Ok?
    ensures var v := OptionalBounded(value, max).value; OptionalBounded(v, max) == Ok(v)
  {
    if value.Some? { BoundedIsFixed(value.value, max); }
  }

  lemma MultilineIsFixed(value: Option<string>, max: nat)
    requires OptionalMultiline(value, max).Ok?
    ensures var v := OptionalMultiline(value, max).value;
      && OptionalMultiline(v, max) == Ok(v)
      && NormalizeText(v) == v
      && (v.Some? ==> |v.value| <= max && !HasBadControl(v.value))
  {
    if value.Some? {
      TrimIsTrimmed(value.value);
      TrimmedIsFixed(Trim(value.value));
    }
  }

  lemma UrlIsFixed(value: string, p: Parsers, field: string)
    requires ValidUrl(value, p, field).Ok?
    ensures var v := ValidUrl(value, p, field).value;
      ValidUrl(v, p, field) == Ok(v) && NormalizeUrl(v, p) == Ok(p.rewrite(v)) && Trimmed(v)
  {
    var v := ValidUrl(value, p, field).value;
    BoundedIsFixed(value, MAX_URL_CHARS);
    TrimmedIsFixed(v);
    SchemeIsLower(p.url(v).value);
  }

  lemma TitleIsFixed(value: string)
    requires BoundedText(value, MAX_PAGE_TITLE_CHARS).Ok?
    ensures var v := BoundedText(value, MAX_PAGE_TITLE_CHARS).value; NormalizeText(Some(v)) == Some(v)
  {
    BoundedIsFixed(value, MAX_PAGE_TITLE_CHARS);
    TrimmedIsFixed(BoundedText(value, MAX_PAGE_TITLE_CHARS).value);
  }

  lemma SchemeIsLower(url: Url)
    requires IsWebUrl(url)
    ensures ToAsciiLowercase(url.scheme) == url.scheme
  {}

  lemma OptionalUrlIsFixed(value: Option<string>, p: Parsers, field: string)
    requires OptionalUrl(value, p, field).Ok?
    ensures var v := OptionalUrl(value, p, field).value;
      OptionalUrl(v, p, field) == Ok(v) && NormalizeOptionalUrl(v, p).Ok?
  {
    if value.Some? { UrlIsFixed(value.value, p, field); }
  }

  predicate AllBounded(s: seq<string>) { forall i :: 0 <= i < |s| ==> BoundedText(s[i], MAX_TAG_CHARS) == Ok(s[i]) }

  /** Validated tags are bounded, distinct, and no more than came in. */
  lemma {:induction false} TagsAreClean(done: seq<string>, tags: seq<string>)
    requires AllBounded(done) && Distinct(done) && ValidTags(done, tags).Ok?
    ensures var r := ValidTags(done, tags).value; AllBounded(r) && Distinct(r) && |r| <= |done| + |tags|
    decreases |tags|
  {
    if tags != [] {
      BoundedIsFixed(tags[0], MAX_TAG_CHARS);
      var tag := BoundedText(tags[0], MAX_TAG_CHARS).value;
      TagsAreClean(if tag in done then done else done + [tag], tags[1..]);
    }
  }

  /** Clean tags pass through unchanged. */
  lemma {:induction false} CleanTagsAreFixed(done: seq<string>, tags: seq<string>)
    requires AllBounded(tags) && Distinct(done + tags)
    ensures ValidTags(done, tags) == Ok(done + tags)
    decreases |tags|
  {
    if tags == [] {
      assert done + tags == done;
    } else {
      assert (done + tags)[|done|] == tags[0];
      assert forall i :: 0 <= i < |done| ==> (done + tags)[i] == done[i];
      assert (done + [tags[0]]) + tags[1..] == done + tags;
      CleanTagsAreFixed(done + [tags[0]], tags[1..]);
    }
  }

  lemma TagsAreFixed(tags: seq<string>)
    requires ValidTags([], tags).Ok?
    ensures var r := ValidTags([], tags).value; ValidTags([], r) == Ok(r) && |r| <= |tags|
  {
    TagsAreClean([], tags);
    CleanTagsPass(ValidTags([], tags).value);
  }

  lemma CleanTagsPass(tags: seq<string>)
    requires AllBounded(tags) && Distinct(tags)
    ensures ValidTags([], tags) == Ok(tags)
  {
    assert [] + tags == tags;
    CleanTagsAreFixed([], tags);
  }

  lemma ActionIdIsFixed(value: string)
    requires ValidActionId(value).Ok?
    ensures var v := ValidActionId(value).value;
      ValidActionId(v) == Ok(v) && v != [] && Trimmed(v) && |v| <= MAX_ACTION_ID_CHARS
  {
    BoundedIsFixed(value, MAX_ACTION_ID_CHARS);
  }

  lemma PublishAtIsFixed(value: Option<string>, p: Parsers)
    requires ValidPublishAt(value, p).Ok?
    ensures var v := ValidPublishAt(value, p).value;
      ValidPublishAt(v, p) == Ok(v) && (v.Some? ==> p.instant(v.value).Some?)
  {
    OptionalBoundedIsFixed(value, MAX_REQUESTED_PUBLISH_AT_CHARS);
  }

  /** Validating a validated submission changes nothing. */
  lemma ValidationIsIdempotent(s: Submission, p: Parsers)
    requires Validated(s, p).Ok?
    ensures Validated(Validated(s, p).value, p) == Validated(s, p)
  {
    ActionIdIsFixed(s.actionId);
    UrlIsFixed(s.url, p, "url");
    OptionalUrlIsFixed(s.pageUrl, p, "page_url");
    OptionalBoundedIsFixed(s.pageTitle, MAX_PAGE_TITLE_CHARS);
    MultilineIsFixed(s.description, MAX_DESCRIPTION_CHARS);
    PublishAtIsFixed(s.publishAt, p);
    MultilineIsFixed(s.postCaption, MAX_POST_CAPTION_CHARS);
    TagsAreFixed(s.tags);
  }

  /** The laws are not empty: a bare request to save is accepted as it is, for any URL and identifier that are. */
  lemma BareSaveIsAccepted(p: Parsers, id: string, url: string)
    requires ValidActionId(id) == Ok(id) && ValidUrl(url, p, "url") == Ok(url)
    ensures var s := Submission(id, url, None, None, None, [], None, None, None); Validated(s, p) == Ok(s)
  {}

  // ---------------------------------------------------------------- acceptance

  lemma PrefixedKey(actionId: string)
    requires actionId != [] && Trimmed(actionId) && |actionId| <= MAX_ACTION_ID_CHARS
    ensures NormalizeKey(Some(KEY_PREFIX + actionId)) == Ok(Some(KEY_PREFIX + actionId))
  {
    var key := KEY_PREFIX + actionId;
    assert key[0] == 'c' && key[|key| - 1] == actionId[|actionId| - 1];
    TrimmedIsFixed(key);
  }

  /** The inbox keeps every bounded tag in lower case, and only those. */
  lemma {:induction false} BoundedTagsPass(done: seq<string>, tags: seq<string>, t: string)
    requires AllBounded(tags) && Distinct(done)
    ensures var r := NormalizeTags(done, tags);
      && r.Ok? && Distinct(r.value)
      && (t in r.value <==> t in done || exists i :: 0 <= i < |tags| && t == ToAsciiLowercase(tags[i]))
    decreases |tags|
  {
    if tags != [] {
      BoundedIsFixed(tags[0], MAX_TAG_CHARS);
      TrimmedIsFixed(tags[0]);
      var tag := ToAsciiLowercase(tags[0]);
      var next := if tag in done then done else done + [tag];
      BoundedTagsPass(next, tags[1..], t);
      OneOrRest(tags, t);
    }
  }

  lemma OneOrRest(tags: seq<string>, t: string)
    requires tags != []
    ensures (exists i :: 0 <= i < |tags| && t == ToAsciiLowercase(tags[i])) <==>
      t == ToAsciiLowercase(tags[0]) || exists i :: 0 <= i < |tags[1..]| && t == ToAsciiLowercase(tags[1..][i])
  {
    assert forall i :: 1 <= i < |tags| ==> tags[i] == tags[1..][i - 1];
    if i :| 0 <= i < |tags[1..]| && t == ToAsciiLowercase(tags[1..][i]) {
      assert tags[i + 1] == tags[1..][i];
    }
  }

  /** What validation leaves behind. */
  ghost predicate Clean(t: Submission, p: Parsers) {
    && t.actionId != [] && Trimmed(t.actionId) && |t.actionId| <= MAX_ACTION_ID_CHARS
    && NormalizeUrl(t.url, p) == Ok(p.rewrite(t.url)) && Trimmed(t.url)
    && (t.pageUrl.Some? ==> NormalizeUrl(t.pageUrl.value, p) == Ok(p.rewrite(t.pageUrl.value)))
    && NormalizeText(t.pageTitle) == t.pageTitle && NormalizeText(t.description) == t.description
    && (t.publishAt.Some? ==> p.instant(t.publishAt.value).Some?)
    && NormalizeText(t.postCaption) == t.postCaption
    && (t.postCaption.Some? ==> |t.postCaption.value| <= MAX_POST_CAPTION_CHARS && !HasBadControl(t.postCaption.value))
    && CheckIntent(ActionOf(t.action), t.publishAt, t.postCaption).Ok?
    && AllBounded(t.tags)
  }

  /** The parts of a validation. */
  ghost predicate Parts(s: Submission, p: Parsers, t: Submission) {
    && ValidActionId(s.actionId) == Ok(t.actionId) && ValidUrl(s.url, p, "url") == Ok(t.url)
    && OptionalUrl(s.pageUrl, p, "page_url") == Ok(t.pageUrl)
    && OptionalBounded(s.pageTitle, MAX_PAGE_TITLE_CHARS) == Ok(t.pageTitle)
    && OptionalMultiline(s.description, MAX_DESCRIPTION_CHARS) == Ok(t.description)
    && ValidPublishAt(s.publishAt, p) == Ok(t.publishAt)
    && OptionalMultiline(s.postCaption, MAX_POST_CAPTION_CHARS) == Ok(t.postCaption)
    && CheckIntent(ActionOf(s.action), t.publishAt, t.postCaption).Ok? && t.action == s.action
    && |s.tags| <= MAX_TAGS && ValidTags([], s.tags) == Ok(t.tags)
  }

  lemma PartsExactly(s: Submission, p: Parsers, t: Submission)
    ensures Validated(s, p) == Ok(t) <==> Parts(s, p, t)
  {}

  lemma ValidatedIsClean(s: Submission, p: Parsers)
    requires Validated(s, p).Ok?
    ensures Clean(Validated(s, p).value, p)
  {
    PartsExactly(s, p, Validated(s, p).value);
    PartsAreClean(s, p, Validated(s, p).value);
  }

  lemma PartsAreClean(s: Submission, p: Parsers, t: Submission)
    requires Parts(s, p, t)
    ensures Clean(t, p)
  {
    ActionIdIsFixed(s.actionId);
    UrlIsFixed(s.url, p, "url");
    if s.pageUrl.Some? { UrlIsFixed(s.pageUrl.value, p, "page_url"); }
    if s.pageTitle.Some? { TitleIsFixed(s.pageTitle.value); }
    MultilineIsFixed(s.description, MAX_DESCRIPTION_CHARS);
    PublishAtIsFixed(s.publishAt, p);
    MultilineIsFixed(s.postCaption, MAX_POST_CAPTION_CHARS);
    TagsAreClean([], s.tags);
  }

  /** The intent checks of both sides agree, up to freshness. */
  lemma IntentAgrees(t: Submission, p: Parsers, now: Option<int>)
    requires Clean(t, p)
    ensures Forwarded(t, p).Ok?
    ensures var input := Forwarded(t, p).value;
      ValidateIntent(input.action, input.publishAt, t.postCaption, now) ==
        if ActionOf(t.action).Queue? && input.publishAt.Some? && now.Some? && input.publishAt.value <= now.value
        then Err(RequestedPublishAtNotFuture) else Ok(())
  {}

  /** The instant a validated submission asks for. */
  ghost function Instant(t: Submission, p: Parsers): Option<int> {
    if t.publishAt.None? then None else p.instant(t.publishAt.value)
  }

  /** A queue time that is not in the future. */
  ghost predicate IsStale(t: Submission, p: Parsers, now: Option<int>) {
    ActionOf(t.action).Queue? && now.Some? && Instant(t, p).Some? && Instant(t, p).value <= now.value
  }

  /** The texts arrive as they are, and the URLs beside their normalized form. */
  ghost predicate KeepsTexts(t: Submission, r: Ingest, p: Parsers) {
    && r.originalUrl == t.url && r.normalizedUrl == p.rewrite(t.url)
    && r.pageUrl == (if t.pageUrl.None? then None else Some(p.rewrite(t.pageUrl.value)))
    && r.pageTitle == t.pageTitle && r.description == t.description
  }

  lemma CleanIsDelivered(t: Submission, p: Parsers, now: Option<int>)
    requires Clean(t, p)
    ensures NormalizeTags([], t.tags).Ok?
    ensures if IsStale(t, p, now) then Delivered(t, now, p) == Err(RequestedPublishAtNotFuture)
      else
        var r := Delivered(t, now, p);
        && r.Ok? && r.value.key == Some(KEY_PREFIX + t.actionId)
        && r.value.action == ActionOf(t.action) && r.value.postCaption == t.postCaption
        && r.value.publishAt == Instant(t, p) && KeepsTexts(t, r.value, p)
        && r.value.tags == NormalizeTags([], t.tags).value
  {
    TagsNormalize(t.tags);
    IntentAgrees(t, p, now);
    var input, tags := Forwarded(t, p).value, NormalizeTags([], t.tags).value;
    TextsNormalize(t, p, input);
    if !IsStale(t, p, now) {
      var pageUrl := if t.pageUrl.None? then None else Some(p.rewrite(t.pageUrl.value));
      BuildPartsExactly(input, now, p,
        Ingest(t.url, p.rewrite(t.url), pageUrl, t.pageTitle, t.description, tags, input.action, input.publishAt,
               t.postCaption, Some(KEY_PREFIX + t.actionId)));
    }
  }

  lemma TagsNormalize(tags: seq<string>)
    requires AllBounded(tags)
    ensures NormalizeTags([], tags).Ok?
  {
    BoundedTagsPass([], tags, "");
  }

  /** Everything but the tags and the intent. */
  lemma TextsNormalize(t: Submission, p: Parsers, input: Input)
    requires Clean(t, p) && Forwarded(t, p) == Ok(input)
    ensures Trim(input.sourceUrl) == t.url && NormalizeUrl(input.sourceUrl, p) == Ok(p.rewrite(t.url))
    ensures NormalizeOptionalUrl(input.pageUrl, p)
         == Ok(if t.pageUrl.None? then None else Some(p.rewrite(t.pageUrl.value)))
    ensures NormalizeKey(input.key) == Ok(Some(KEY_PREFIX + t.actionId))
    ensures NormalizeText(input.pageTitle) == t.pageTitle && NormalizeText(input.description) == t.description
    ensures NormalizeText(input.postCaption) == t.postCaption
  {
    PrefixedKey(t.actionId);
    TrimmedIsFixed(t.url);
  }

  /** The exception is real: the companion accepts any valid queue time that has come, and the inbox refuses
      it exactly where freshness is enforced. */
  lemma DueQueueTimeIsRefused(p: Parsers, id: string, url: string, text: string, now: int)
    requires ValidActionId(id) == Ok(id) && ValidUrl(url, p, "url") == Ok(url)
    requires ValidPublishAt(Some(text), p) == Ok(Some(text)) && p.instant(text).value <= now
    ensures var s := Submission(id, url, None, None, None, [], Some(Queue), Some(text), None);
      && Validated(s, p) == Ok(s) && IsStale(s, p, Some(now))
      && Delivered(s, Some(now), p) == Err(RequestedPublishAtNotFuture)
      && Delivered(s, None, p).Ok?
  {
    var s := Submission(id, url, None, None, None, [], Some(Queue), Some(text), None);
    assert Validated(s, p) == Ok(s);
    AcceptedIsDelivered(s, p, Some(now));
    AcceptedIsDelivered(s, p, None);
  }

  /**
    Everything the companion accepts, the inbox accepts, except a queue time that is not in the future
    where freshness is enforced. The key, the action, the instant, the caption and the other texts arrive
    unchanged, and the tags in lower case, each once.
  */
  lemma AcceptedIsDelivered(s: Submission, p: Parsers, now: Option<int>)
    requires Validated(s, p).Ok?
    ensures var t := Validated(s, p).value; var r := Delivered(t, now, p);
      if IsStale(t, p, now) then r == Err(RequestedPublishAtNotFuture)
      else
        && r.Ok? && r.value.key == Some(KEY_PREFIX + t.actionId)
        && r.value.action == ActionOf(t.action) && r.value.postCaption == t.postCaption
        && r.value.publishAt == Instant(t, p) && KeepsTexts(t, r.value, p)
        && Distinct(r.value.tags)
        && forall tag :: tag in r.value.tags <==> exists i :: 0 <= i < |t.tags| && tag == ToAsciiLowercase(t.tags[i])
  {
    var t := Validated(s, p).value;
    ValidatedIsClean(s, p);
    CleanIsDelivered(t, p, now);
    var tags := NormalizeTags([], t.tags).value;
    BoundedTagsPass([], t.tags, "");
    forall tag ensures tag in tags <==> exists i :: 0 <= i < |t.tags| && tag == ToAsciiLowercase(t.tags[i]) {
      BoundedTagsPass([], t.tags, tag);
    }
  }

  // ---------------------------------------------------------------- what is accepted, and as what

  /** One line of text: trimmed, not empty, within the bound, without control characters. */
  ghost predicate LineAs(s: string, max: nat, t: string) {
    && TrimsTo(s, t) && 0 < |t| <= max
    && forall i :: 0 <= i < |t| ==> !IsControl(t[i])
  }

  ghost predicate OptionalLineAs(s: Option<string>, max: nat, t: Option<string>) {
    if s.None? then t.None? else t.Some? && LineAs(s.value, max, t.value)
  }

  /** Text of several lines: blank text is no text, and line breaks and tabs are allowed. */
  ghost predicate LinesAs(s: Option<string>, max: nat, t: Option<string>) {
    if s.None? || TrimsTo(s.value, "") then t.None?
    else
      && t.Some? && TrimsTo(s.value, t.value) && |t.value| <= max
      && forall i :: 0 <= i < |t.value| ==> IsControl(t.value[i]) ==> t.value[i] in {'\n', '\r', '\t'}
  }

  ghost predicate UrlAs(s: string, p: Parsers, t: string) {
    && LineAs(s, 4096, t) && p.url(t).Some?
    && var url := p.url(t).value;
       url.scheme in {"http", "https"} && url.hasHost && !url.hasUsername && !url.hasPassword
  }

  /** Of every line its first occurrence, in order. */
  ghost function Firsts(lines: seq<string>): seq<string> {
    if lines == [] then []
    else
      var init, last := lines[..|lines| - 1], lines[|lines| - 1];
      if last in init then Firsts(init) else Firsts(init) + [last]
  }

  ghost predicate LinesOf(tags: seq<string>, lines: seq<string>) {
    |lines| == |tags| && forall i :: 0 <= i < |tags| ==> LineAs(tags[i], 64, lines[i])
  }

  /** Every tag is a line, and each line is kept once, in the order in which it first comes. */
  ghost predicate TagsAs(tags: seq<string>, kept: seq<string>) {
    |tags| <= 32 && exists lines :: LinesOf(tags, lines) && kept == Firsts(lines)
  }

  ghost predicate ActionIdAs(s: string, t: string) {
    LineAs(s, 128, t) && forall i :: 0 <= i < |t| ==> t[i] as int < 128 && !IsWhitespace(t[i])
  }

  ghost predicate OptionalUrlAs(s: Option<string>, p: Parsers, t: Option<string>) {
    if s.None? then t.None? else t.Some? && UrlAs(s.value, p, t.value)
  }

  ghost predicate PublishAtAs(s: Option<string>, p: Parsers, t: Option<string>) {
    OptionalLineAs(s, 64, t) && (t.Some? ==> p.instant(t.value).Some?)
  }

  /** Only what is queued has a time, and nothing that is only saved has a caption. */
  ghost predicate IntentAllowed(t: Submission) {
    && (t.action.None? || t.action == Some(Save) ==> t.publishAt.None? && t.postCaption.None?)
    && (t.action == Some(PostNow) ==> t.publishAt.None?)
  }

  /** What the companion accepts a submission as. */
  ghost predicate AcceptedAs(s: Submission, p: Parsers, t: Submission) {
    && ActionIdAs(s.actionId, t.actionId) && UrlAs(s.url, p, t.url) && OptionalUrlAs(s.pageUrl, p, t.pageUrl)
    && OptionalLineAs(s.pageTitle, 512, t.pageTitle) && LinesAs(s.description, 2048, t.description)
    && PublishAtAs(s.publishAt, p, t.publishAt) && LinesAs(s.postCaption, 1024, t.postCaption)
    && t.action == s.action && IntentAllowed(t) && TagsAs(s.tags, t.tags)
  }

  lemma LineExactly(s: string, max: nat, t: string)
    ensures BoundedText(s, max) == Ok(t) <==> LineAs(s, max, t)
  {
    TrimExactly(s, t);
  }

  lemma OptionalLineExactly(s: Option<string>, max: nat, t: Option<string>)
    ensures OptionalBounded(s, max) == Ok(t) <==> OptionalLineAs(s, max, t)
  {
    if s.Some? && t.Some? { LineExactly(s.value, max, t.value); }
  }

  lemma LinesExactly(s: Option<string>, max: nat, t: Option<string>)
    ensures OptionalMultiline(s, max) == Ok(t) <==> LinesAs(s, max, t)
  {
    if s.Some? {
      TrimExactly(s.value, "");
      if t.Some? { TrimExactly(s.value, t.value); }
    }
  }

  lemma UrlExactly(s: string, p: Parsers, field: string, t: string)
    ensures ValidUrl(s, p, field) == Ok(t) <==> UrlAs(s, p, t)
  {
    LineExactly(s, MAX_URL_CHARS, t);
  }

  lemma ActionIdExactly(s: string, t: string)
    ensures ValidActionId(s) == Ok(t) <==> ActionIdAs(s, t)
  {
    LineExactly(s, MAX_ACTION_ID_CHARS, t);
  }

  lemma PublishAtExactly(s: Option<string>, p: Parsers, t: Option<string>)
    ensures ValidPublishAt(s, p) == Ok(t) <==> PublishAtAs(s, p, t)
  {
    OptionalLineExactly(s, MAX_REQUESTED_PUBLISH_AT_CHARS, t);
  }

  lemma OptionalUrlExactly(s: Option<string>, p: Parsers, field: string, t: Option<string>)
    ensures OptionalUrl(s, p, field) == Ok(t) <==> OptionalUrlAs(s, p, t)
  {
    if s.Some? && t.Some? { UrlExactly(s.value, p, field, t.value); }
  }

  // ---------------------------------------------------------------- tags

  /** Nothing is lost and nothing comes twice. */
  lemma {:induction false} FirstsMeaning(lines: seq<string>, c: string)
    ensures c in Firsts(lines) <==> c in lines
    ensures Distinct(Firsts(lines))
  {
    if lines != [] {
      var init, last := lines[..|lines| - 1], lines[|lines| - 1];
      assert lines == init + [last];
      FirstsMeaning(init, c);
      if last !in init {
        FirstsMeaning(init, last);
        DistinctSnoc(Firsts(init), last);
      }
    }
  }

  lemma DistinctSnoc(s: seq<string>, c: string)
    requires Distinct(s) && c !in s
    ensures Distinct(s + [c])
  {}

  lemma FirstsSnoc(lines: seq<string>, line: string)
    ensures Firsts(lines + [line]) == if line in Firsts(lines) then Firsts(lines) else Firsts(lines) + [line]
  {
    FirstsMeaning(lines, line);
    assert (lines + [line])[..|lines|] == lines;
  }

  /** What the loop makes of the lines that are left. */
  ghost function Added(done: seq<string>, lines: seq<string>): seq<string>
    decreases |lines|
  {
    if lines == [] then done else Added(if lines[0] in done then done else done + [lines[0]], lines[1..])
  }

  lemma AddedStep(done: seq<string>, lines: seq<string>, i: nat)
    requires i < |lines|
    ensures Added(done, lines[i..]) == Added(if lines[i] in done then done else done + [lines[i]], lines[i + 1..])
  {
    assert lines[i..][1..] == lines[i + 1..];
  }

  lemma FirstsStep(lines: seq<string>, i: nat)
    requires i < |lines|
    ensures var done := Firsts(lines[..i]);
      Firsts(lines[..i + 1]) == if lines[i] in done then done else done + [lines[i]]
  {
    assert lines[..i] + [lines[i]] == lines[..i + 1];
    FirstsSnoc(lines[..i], lines[i]);
  }

  lemma {:induction false} AddedFirsts(lines: seq<string>, i: nat)
    requires i <= |lines|
    ensures Added(Firsts(lines[..i]), lines[i..]) == Firsts(lines)
    decreases |lines| - i
  {
    if i == |lines| {
      assert lines[..i] == lines;
    } else {
      AddedStep(Firsts(lines[..i]), lines, i);
      FirstsStep(lines, i);
      AddedFirsts(lines, i + 1);
    }
  }

  /** The loop adds the lines of the tags. */
  lemma {:induction false} LinesPass(done: seq<string>, tags: seq<string>, lines: seq<string>)
    requires LinesOf(tags, lines)
    ensures ValidTags(done, tags) == Ok(Added(done, lines))
    decreases |tags|
  {
    if tags != [] {
      LineExactly(tags[0], MAX_TAG_CHARS, lines[0]);
      LinesPass(if lines[0] in done then done else done + [lines[0]], tags[1..], lines[1..]);
    }
  }

  /** And where it succeeds every tag has its line. */
  lemma {:induction false} PassedLines(done: seq<string>, tags: seq<string>) returns (lines: seq<string>)
    requires ValidTags(done, tags).Ok?
    ensures LinesOf(tags, lines)
    decreases |tags|
  {
    if tags == [] {
      lines := [];
    } else {
      var tag := BoundedText(tags[0], MAX_TAG_CHARS).value;
      LineExactly(tags[0], MAX_TAG_CHARS, tag);
      var rest := PassedLines(if tag in done then done else done + [tag], tags[1..]);
      lines := [tag] + rest;
    }
  }

  lemma TagsExactly(tags: seq<string>, kept: seq<string>)
    ensures |tags| <= MAX_TAGS && ValidTags([], tags) == Ok(kept) <==> TagsAs(tags, kept)
  {
    if ValidTags([], tags) == Ok(kept) {
      var lines := PassedLines([], tags);
      LinesPass([], tags, lines);
      AddedFirsts(lines, 0);
      assert lines[0..] == lines;
    }
    if TagsAs(tags, kept) {
      var lines :| LinesOf(tags, lines) && kept == Firsts(lines);
      LinesPass([], tags, lines);
      AddedFirsts(lines, 0);
      assert lines[0..] == lines;
    }
  }

  /** The companion accepts exactly these submissions, as exactly this. */
  lemma AcceptedExactly(s: Submission, p: Parsers, t: Submission)
    ensures Validated(s, p) == Ok(t) <==> AcceptedAs(s, p, t)
  {
    PartsExactly(s, p, t);
    NamesExactly(s, p, t);
    TextsExactly(s, p, t);
    if t.action == s.action { IntentExactly(s, t); }
    TagsExactly(s.tags, t.tags);
  }

  lemma NamesExactly(s: Submission, p: Parsers, t: Submission)
    ensures ValidActionId(s.actionId) == Ok(t.actionId) <==> ActionIdAs(s.actionId, t.actionId)
    ensures ValidUrl(s.url, p, "url") == Ok(t.url) <==> UrlAs(s.url, p, t.url)
    ensures OptionalUrl(s.pageUrl, p, "page_url") == Ok(t.pageUrl) <==> OptionalUrlAs(s.pageUrl, p, t.pageUrl)
  {
    ActionIdExactly(s.actionId, t.actionId);
    UrlExactly(s.url, p, "url", t.url);
    OptionalUrlExactly(s.pageUrl, p, "page_url", t.pageUrl);
  }

  lemma TextsExactly(s: Submission, p: Parsers, t: Submission)
    ensures OptionalBounded(s.pageTitle, MAX_PAGE_TITLE_CHARS) == Ok(t.pageTitle) <==>
      OptionalLineAs(s.pageTitle, 512, t.pageTitle)
    ensures OptionalMultiline(s.description, MAX_DESCRIPTION_CHARS) == Ok(t.description) <==>
      LinesAs(s.description, 2048, t.description)
    ensures ValidPublishAt(s.publishAt, p) == Ok(t.publishAt) <==> PublishAtAs(s.publishAt, p, t.publishAt)
    ensures OptionalMultiline(s.postCaption, MAX_POST_CAPTION_CHARS) == Ok(t.postCaption) <==>
      LinesAs(s.postCaption, 1024, t.postCaption)
  {
    OptionalLineExactly(s.pageTitle, MAX_PAGE_TITLE_CHARS, t.pageTitle);
    LinesExactly(s.description, MAX_DESCRIPTION_CHARS, t.description);
    PublishAtExactly(s.publishAt, p, t.publishAt);
    LinesExactly(s.postCaption, MAX_POST_CAPTION_CHARS, t.postCaption);
  }

  lemma IntentExactly(s: Submission, t: Submission)
    requires t.action == s.action
    ensures CheckIntent(ActionOf(s.action), t.publishAt, t.postCaption).Ok? <==> IntentAllowed(t)
  {}

  // ---------------------------------------------------------------- what the inbox builds

  /** A URL is normalized when it is a web URL without credentials; the scheme may be in any case. */
  ghost predicate NormalizedAs(s: string, p: Parsers, original: string, normalized: string) {
    && TrimsTo(s, original) && original != [] && p.url(original).Some?
    && (var url := p.url(original).value;
        && ToAsciiLowercase(url.scheme) in {"http", "https"}
        && url.hasHost && !url.hasUsername && !url.hasPassword)
    && normalized == p.rewrite(original)
  }

  ghost predicate OptionalNormalizedAs(s: Option<string>, p: Parsers, t: Option<string>) {
    if s.None? then t.None?
    else t.Some? && exists original :: NormalizedAs(s.value, p, original, t.value)
  }

  /** Blank text is no text. */
  ghost predicate TextAs(s: Option<string>, t: Option<string>) {
    if s.None? || TrimsTo(s.value, "") then t.None? else t.Some? && TrimsTo(s.value, t.value)
  }

  ghost predicate KeyAs(s: Option<string>, t: Option<string>) {
    if s.None? then t.None? else t.Some? && TrimsTo(s.value, t.value) && 0 < |t.value| <= 255
  }

  ghost predicate LowerLine(tag: string, line: string) {
    exists text :: TrimsTo(tag, text) && text != [] && line == ToAsciiLowercase(text)
  }

  ghost predicate LowerLinesOf(tags: seq<string>, lines: seq<string>) {
    |lines| == |tags| && forall i :: 0 <= i < |tags| ==> LowerLine(tags[i], lines[i])
  }

  /** Caption and time go with the action, and a time for the queue lies in the future where that matters. */
  ghost predicate InboxIntent(r: Ingest, now: Option<int>) {
    && (r.postCaption.Some? ==>
          && |r.postCaption.value| <= 1024
          && forall i :: 0 <= i < |r.postCaption.value| ==>
               IsControl(r.postCaption.value[i]) ==> r.postCaption.value[i] in {'\n', '\r', '\t'})
    && (r.action == Save ==> r.publishAt.None? && r.postCaption.None?)
    && (r.action == PostNow ==> r.publishAt.None?)
    && (r.action == Queue && now.Some? && r.publishAt.Some? ==> r.publishAt.value > now.value)
  }

  /** What the inbox makes of its input. */
  ghost predicate BuiltAs(input: Input, now: Option<int>, p: Parsers, r: Ingest) {
    && NormalizedAs(input.sourceUrl, p, r.originalUrl, r.normalizedUrl)
    && OptionalNormalizedAs(input.pageUrl, p, r.pageUrl)
    && TextAs(input.pageTitle, r.pageTitle) && TextAs(input.description, r.description)
    && TextAs(input.postCaption, r.postCaption) && KeyAs(input.key, r.key)
    && r.action == input.action && r.publishAt == input.publishAt && InboxIntent(r, now)
    && exists lines :: LowerLinesOf(input.tags, lines) && r.tags == Firsts(lines)
  }

  lemma NormalizedExactly(s: string, p: Parsers, original: string, normalized: string)
    ensures NormalizedAs(s, p, original, normalized) <==>
      original == Trim(s) && NormalizeUrl(s, p) == Ok(normalized)
  {
    TrimExactly(s, original);
  }

  lemma OptionalNormalizedExactly(s: Option<string>, p: Parsers, t: Option<string>)
    ensures NormalizeOptionalUrl(s, p) == Ok(t) <==> OptionalNormalizedAs(s, p, t)
  {
    if s.Some? && t.Some? {
      NormalizedExactly(s.value, p, Trim(s.value), t.value);
      forall original ensures NormalizedAs(s.value, p, original, t.value) ==> original == Trim(s.value) {
        NormalizedExactly(s.value, p, original, t.value);
      }
    }
  }

  lemma TextExactly(s: Option<string>, t: Option<string>)
    ensures NormalizeText(s) == t <==> TextAs(s, t)
  {
    if s.Some? {
      TrimExactly(s.value, "");
      if t.Some? { TrimExactly(s.value, t.value); }
    }
  }

  lemma KeyExactly(s: Option<string>, t: Option<string>)
    ensures NormalizeKey(s) == Ok(t) <==> KeyAs(s, t)
  {
    if s.Some? && t.Some? { TrimExactly(s.value, t.value); }
  }

  lemma LowerLineExactly(tag: string, line: string)
    ensures LowerLine(tag, line) <==> Trim(tag) != [] && line == ToAsciiLowercase(Trim(tag))
  {
    TrimExactly(tag, Trim(tag));
    if text :| TrimsTo(tag, text) && text != [] && line == ToAsciiLowercase(text) { TrimExactly(tag, text); }
  }

  lemma {:induction false} LowerLinesPass(done: seq<string>, tags: seq<string>, lines: seq<string>)
    requires LowerLinesOf(tags, lines)
    ensures NormalizeTags(done, tags) == Ok(Added(done, lines))
    decreases |tags|
  {
    if tags != [] {
      LowerLineExactly(tags[0], lines[0]);
      LowerLinesPass(if lines[0] in done then done else done + [lines[0]], tags[1..], lines[1..]);
    }
  }

  lemma {:induction false} PassedLowerLines(done: seq<string>, tags: seq<string>) returns (lines: seq<string>)
    requires NormalizeTags(done, tags).Ok?
    ensures LowerLinesOf(tags, lines)
    decreases |tags|
  {
    if tags == [] {
      lines := [];
    } else {
      var tag := ToAsciiLowercase(Trim(tags[0]));
      LowerLineExactly(tags[0], tag);
      var rest := PassedLowerLines(if tag in done then done else done + [tag], tags[1..]);
      lines := [tag] + rest;
    }
  }

  lemma LowerTagsExactly(tags: seq<string>, kept: seq<string>)
    ensures NormalizeTags([], tags) == Ok(kept) <==> exists lines :: LowerLinesOf(tags, lines) && kept == Firsts(lines)
  {
    if NormalizeTags([], tags) == Ok(kept) {
      var lines := PassedLowerLines([], tags);
      LowerLinesPass([], tags, lines);
      AddedFirsts(lines, 0);
      assert lines[0..] == lines;
    }
    if lines :| LowerLinesOf(tags, lines) && kept == Firsts(lines) {
      LowerLinesPass([], tags, lines);
      AddedFirsts(lines, 0);
      assert lines[0..] == lines;
    }
  }

  lemma InboxIntentExactly(r: Ingest, now: Option<int>)
    ensures ValidateIntent(r.action, r.publishAt, r.postCaption, now).Ok? <==> InboxIntent(r, now)
  {}

  /** The parts of a construction. */
  ghost predicate BuildParts(input: Input, now: Option<int>, p: Parsers, r: Ingest) {
    && Trim(input.sourceUrl) == r.originalUrl && NormalizeUrl(input.sourceUrl, p) == Ok(r.normalizedUrl)
    && NormalizeOptionalUrl(input.pageUrl, p) == Ok(r.pageUrl)
    && NormalizeText(input.pageTitle) == r.pageTitle && NormalizeText(input.description) == r.description
    && NormalizeText(input.postCaption) == r.postCaption && NormalizeKey(input.key) == Ok(r.key)
    && r.action == input.action && r.publishAt == input.publishAt
    && ValidateIntent(r.action, r.publishAt, r.postCaption, now).Ok? && NormalizeTags([], input.tags) == Ok(r.tags)
  }

  lemma BuildPartsExactly(input: Input, now: Option<int>, p: Parsers, r: Ingest)
    ensures TryNew(input, now, p) == Ok(r) <==> BuildParts(input, now, p, r)
  {}

  /** The inbox accepts exactly these inputs, as exactly this. */
  lemma BuiltExactly(input: Input, now: Option<int>, p: Parsers, r: Ingest)
    ensures TryNew(input, now, p) == Ok(r) <==> BuiltAs(input, now, p, r)
  {
    BuildPartsExactly(input, now, p, r);
    NormalizedExactly(input.sourceUrl, p, r.originalUrl, r.normalizedUrl);
    OptionalNormalizedExactly(input.pageUrl, p, r.pageUrl);
    BuiltTextsExactly(input, r);
    KeyExactly(input.key, r.key);
    InboxIntentExactly(r, now);
    LowerTagsExactly(input.tags, r.tags);
  }

  lemma BuiltTextsExactly(input: Input, r: Ingest)
    ensures NormalizeText(input.pageTitle) == r.pageTitle <==> TextAs(input.pageTitle, r.pageTitle)
    ensures NormalizeText(input.description) == r.description <==> TextAs(input.description, r.description)
    ensures NormalizeText(input.postCaption) == r.postCaption <==> TextAs(input.postCaption, r.postCaption)
  {
    TextExactly(input.pageTitle, r.pageTitle);
    TextExactly(input.description, r.description);
    TextExactly(input.postCaption, r.postCaption);
  }
}
