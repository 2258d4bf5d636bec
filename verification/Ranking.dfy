/**
  The duplicate decision for a video (apps/worker/src/identity.rs): every stored candidate is aligned
  with the incoming fingerprint, the matches are ranked, and a strong duplicate leaves the best three
  as evidence. Decoding and aligning a candidate is an arbitrary function `align`.
*/
module Ranking {
  import opened Prelude

  const MAX_VIDEO_DUPLICATE_MATCHES := 3

  datatype SequenceClass = StrongDuplicate | PartialMatch | NotDuplicate

  /** `detail` stands for the coverage and distance figures, which are carried along unread. */
  datatype Alignment = Alignment(class_: SequenceClass, scoreBps: nat, detail: seq<int>)

  /** Media ids are 128-bit numbers compared as such. */
  datatype Candidate = Candidate(mediaId: nat, version: string, sharedTokens: nat, overlapBps: nat)

  datatype Match = Match(
    mediaId: nat, version: string, strong: bool, scoreBps: nat, sharedTokens: nat, overlapBps: nat, detail: seq<int>)

  datatype Decision = NoMatch | DuplicatePending(matches: seq<Match>)

  type Align = Candidate -> Result<Alignment, string>

  /** duplicate_match. */
  function DuplicateMatch(c: Candidate, a: Alignment): Option<Match> {
    if a.class_.NotDuplicate? then None
    else
      var strong := a.class_.StrongDuplicate?;
      Some(Match(c.mediaId, c.version, strong, a.scoreBps, c.sharedTokens, c.overlapBps, a.detail))
  }

  /** classification_rank. */
  function Rank(m: Match): nat { if m.strong then 2 else 1 }

  /** The comparison: class, then score, then shared tokens, all descending, then id ascending. */
  predicate Above(a: Match, b: Match) {
    || Rank(a) > Rank(b)
    || (Rank(a) == Rank(b)
        && (|| a.scoreBps > b.scoreBps
            || (a.scoreBps == b.scoreBps
                && (|| a.sharedTokens > b.sharedTokens
                    || (a.sharedTokens == b.sharedTokens && a.mediaId < b.mediaId)))))
  }

  ghost predicate Sorted(s: seq<Match>) { forall i, j :: 0 <= i < j < |s| ==> !Above(s[j], s[i]) }

  // ---------------------------------------------------------------- the decision

  /** The matches in candidate order, or the first failure. */
  function Collect(candidates: seq<Candidate>, align: Align): Result<seq<Match>, string> {
    if candidates == [] then Ok([])
    else
      match align(candidates[0])
      case Err(e) => Err(e)
      case Ok(a) =>
        match Collect(candidates[1..], align)
        case Err(e) => Err(e)
        case Ok(rest) =>
          match DuplicateMatch(candidates[0], a)
          case None => Ok(rest)
          case Some(m) => Ok([m] + rest)
  }

  /** Before the first match that is not above it, so equals keep their order. */
  function Insert(m: Match, s: seq<Match>): seq<Match> {
    if s == [] || !Above(s[0], m) then [m] + s else [s[0]] + Insert(m, s[1..])
  }

  /** slice::sort_by, a stable sort. */
  function Sort(s: seq<Match>): seq<Match> {
    if s == [] then [] else Insert(s[0], Sort(s[1..]))
  }

  predicate AnyStrong(s: seq<Match>) { exists i :: 0 <= i < |s| && s[i].strong }

  /** align_video_identity. */
  function Decide(candidates: seq<Candidate>, align: Align): Result<Decision, string> {
    match Collect(candidates, align)
    case Err(e) => Err(e)
    case Ok(matches) =>
      var ranked := Sort(matches);
      if !AnyStrong(ranked) then Ok(NoMatch)
      else if |ranked| <= MAX_VIDEO_DUPLICATE_MATCHES then Ok(DuplicatePending(ranked))
      else Ok(DuplicatePending(ranked[..MAX_VIDEO_DUPLICATE_MATCHES]))
  }

  ghost function Prepend(s: seq<Match>, r: Result<seq<Match>, string>): Result<seq<Match>, string> {
    match r
    case Err(e) => Err(e)
    case Ok(rest) => Ok(s + rest)
  }

  lemma PrependNothing(r: Result<seq<Match>, string>)
    ensures Prepend([], r) == r
  {
    if r.Ok? { assert [] + r.value == r.value; }
  }

  lemma CollectStep(s: seq<Match>, candidates: seq<Candidate>, i: nat, align: Align)
    requires i < |candidates|
    ensures Prepend(s, Collect(candidates[i..], align)) ==
      match align(candidates[i])
      case Err(e) => Err(e)
      case Ok(a) =>
        match DuplicateMatch(candidates[i], a)
        case None => Prepend(s, Collect(candidates[i + 1..], align))
        case Some(m) => Prepend(s + [m], Collect(candidates[i + 1..], align))
  {
    assert candidates[i..][1..] == candidates[i + 1..];
    var rest := Collect(candidates[i + 1..], align);
    if align(candidates[i]).Ok? && rest.Ok? {
      var m := DuplicateMatch(candidates[i], align(candidates[i]).value);
      if m.Some? { assert s + ([m.value] + rest.value) == (s + [m.value]) + rest.value; }
    }
  }

  /** The vector as the source builds, sorts and truncates it. */
  method AlignVideoIdentity(candidates: seq<Candidate>, align: Align) returns (r: Result<Decision, string>)
    ensures r == Decide(candidates, align)
    ensures r.Ok? <==> Aligns(candidates, align)
    ensures r.Ok? ==> (r.value.NoMatch? <==> !SomeStrong(candidates, align))
    ensures r.Ok? && r.value.DuplicatePending? ==> IsEvidence(r.value.matches, candidates, align)
  {
    r := RankCandidates(candidates, align);
    DecisionMeaning(candidates, align);
    if r.Ok? { DecidedExactly(candidates, align); }
  }

  method RankCandidates(candidates: seq<Candidate>, align: Align) returns (r: Result<Decision, string>)
    ensures r == Decide(candidates, align)
  {
    var matches: seq<Match> := [];
    assert candidates[0..] == candidates;
    PrependNothing(Collect(candidates, align));
    for i := 0 to |candidates|
      invariant Collect(candidates, align) == Prepend(matches, Collect(candidates[i..], align))
    {
      CollectStep(matches, candidates, i, align);
      var alignment := align(candidates[i]);
      if alignment.Err? { return Err(alignment.error); }
      var m := DuplicateMatch(candidates[i], alignment.value);
      if m.Some? { matches := matches + [m.value]; }
    }
    assert candidates[|candidates|..] == [] && matches + [] == matches;
    matches := Sort(matches);
    if !AnyStrong(matches) { return Ok(NoMatch); }
    if |matches| > MAX_VIDEO_DUPLICATE_MATCHES { matches := matches[..MAX_VIDEO_DUPLICATE_MATCHES]; }
    r := Ok(DuplicatePending(matches));
  }

  // ---------------------------------------------------------------- sorting

  lemma AboveIsTransitive(a: Match, b: Match, c: Match)
    ensures !Above(b, a) && !Above(c, b) ==> !Above(c, a)
    ensures !(Above(a, b) && Above(b, a))
  {}

  lemma {:induction false} InsertKeepsSorted(m: Match, s: seq<Match>)
    requires Sorted(s)
    ensures Sorted(Insert(m, s)) && multiset(Insert(m, s)) == multiset(s) + multiset{m}
  {
    if s == [] || !Above(s[0], m) {
      forall i | 0 <= i < |s| ensures !Above(s[i], m) {
        if i > 0 { AboveIsTransitive(m, s[0], s[i]); }
      }
    } else {
      InsertKeepsSorted(m, s[1..]);
      assert s == [s[0]] + s[1..];
      ConsKeepsSorted(m, s, Insert(m, s[1..]));
    }
  }

  lemma ConsKeepsSorted(m: Match, s: seq<Match>, rest: seq<Match>)
    requires s != [] && Sorted(s) && Above(s[0], m)
    requires Sorted(rest) && multiset(rest) == multiset(s[1..]) + multiset{m}
    ensures Sorted([s[0]] + rest)
  {
    AboveIsTransitive(s[0], m, m);
    forall i | 0 <= i < |rest| ensures !Above(rest[i], s[0]) {
      assert rest[i] in multiset(rest);
      if rest[i] != m {
        assert rest[i] in s[1..];
        var j :| 0 <= j < |s[1..]| && s[1..][j] == rest[i];
        assert s[j + 1] == rest[i];
      }
    }
  }

  /** Sorting orders the matches and loses none. */
  lemma {:induction false} SortSorts(s: seq<Match>)
    ensures Sorted(Sort(s)) && multiset(Sort(s)) == multiset(s)
  {
    if s != [] {
      SortSorts(s[1..]);
      InsertKeepsSorted(s[0], Sort(s[1..]));
      assert s == [s[0]] + s[1..];
    }
  }

  /** The matches that tie with `k`. */
  ghost function Ties(s: seq<Match>, k: Match): seq<Match> {
    if s == [] then []
    else (if !Above(s[0], k) && !Above(k, s[0]) then [s[0]] else []) + Ties(s[1..], k)
  }

  lemma {:induction false} InsertIsStable(m: Match, s: seq<Match>, k: Match)
    requires Sorted(s)
    ensures Ties(Insert(m, s), k) == Ties([m] + s, k)
  {
    assert ([m] + s)[1..] == s;
    if s != [] && Above(s[0], m) {
      InsertIsStable(m, s[1..], k);
      var rest := Insert(m, s[1..]);
      assert ([s[0]] + rest)[1..] == rest;
      assert ([m] + s[1..])[1..] == s[1..];
      AboveIsTransitive(m, k, s[0]);
      AboveIsTransitive(s[0], k, m);
    }
  }

  /** Matches that tie stay in candidate order. */
  lemma {:induction false} SortIsStable(s: seq<Match>, k: Match)
    ensures Ties(Sort(s), k) == Ties(s, k)
  {
    if s != [] {
      SortSorts(s[1..]);
      InsertIsStable(s[0], Sort(s[1..]), k);
      SortIsStable(s[1..], k);
      assert ([s[0]] + Sort(s[1..]))[1..] == Sort(s[1..]);
    }
  }

  /** No two different matches tie. */
  ghost predicate Separated(s: multiset<Match>) {
    forall a, b :: a in s && b in s && !Above(a, b) && !Above(b, a) ==> a == b
  }

  lemma HeadsAgree(s: seq<Match>, t: seq<Match>)
    requires Sorted(s) && Sorted(t) && multiset(s) == multiset(t) && Separated(multiset(s))
    requires s != [] && t != []
    ensures s[0] == t[0]
  {
    assert s[0] in multiset(t) && t[0] in multiset(s);
    var i :| 0 <= i < |t| && t[i] == s[0];
    var j :| 0 <= j < |s| && s[j] == t[0];
    AboveIsTransitive(s[0], s[0], s[0]);
    assert !Above(s[0], t[0]) && !Above(t[0], s[0]);
  }

  lemma TailFacts(s: seq<Match>)
    requires s != [] && Sorted(s) && Separated(multiset(s))
    ensures multiset(s[1..]) == multiset(s) - multiset{s[0]}
    ensures Sorted(s[1..]) && Separated(multiset(s[1..]))
  {
    assert s == [s[0]] + s[1..];
    forall i, j | 0 <= i < j < |s[1..]| ensures !Above(s[1..][j], s[1..][i]) {
      assert !Above(s[j + 1], s[i + 1]);
    }
  }

  /** Without ties there is one sorted order. */
  lemma {:induction false} SortedIsUnique(s: seq<Match>, t: seq<Match>)
    requires Sorted(s) && Sorted(t) && multiset(s) == multiset(t) && Separated(multiset(s))
    ensures s == t
  {
    assert |s| == |multiset(s)| && |t| == |multiset(t)|;
    if s != [] {
      HeadsAgree(s, t);
      TailFacts(s);
      TailFacts(t);
      SortedIsUnique(s[1..], t[1..]);
      SameParts(s, t);
    }
  }

  lemma SameParts(s: seq<Match>, t: seq<Match>)
    requires s != [] && t != [] && s[0] == t[0] && s[1..] == t[1..]
    ensures s == t
  {
    assert s == [s[0]] + s[1..] && t == [t[0]] + t[1..];
  }

  // ---------------------------------------------------------------- order independence

  ghost predicate Aligns(candidates: seq<Candidate>, align: Align) {
    forall i :: 0 <= i < |candidates| ==> align(candidates[i]).Ok?
  }

  /** A media id names one candidate. */
  ghost predicate IdsIdentify(candidates: seq<Candidate>) {
    forall i, j :: 0 <= i < j < |candidates| ==>
      candidates[i].mediaId == candidates[j].mediaId ==> candidates[i] == candidates[j]
  }

  /** What one candidate contributes. */
  ghost function MatchOf(c: Candidate, align: Align): seq<Match> {
    match align(c)
    case Err(_) => []
    case Ok(a) => var m := DuplicateMatch(c, a); if m.Some? then [m.value] else []
  }

  /** The matches, in candidate order. */
  ghost function Matches(candidates: seq<Candidate>, align: Align): seq<Match> {
    if candidates == [] then [] else MatchOf(candidates[0], align) + Matches(candidates[1..], align)
  }

  /** Collecting fails exactly when some candidate does not decode or align. */
  lemma {:induction false} CollectExactly(candidates: seq<Candidate>, align: Align)
    ensures Collect(candidates, align).Ok? <==> Aligns(candidates, align)
    ensures Aligns(candidates, align) ==> Collect(candidates, align) == Ok(Matches(candidates, align))
  {
    if candidates != [] {
      CollectExactly(candidates[1..], align);
      assert candidates == [candidates[0]] + candidates[1..];
      assert [] + Matches(candidates[1..], align) == Matches(candidates[1..], align);
    }
  }

  lemma {:induction false} MatchesConcat(a: seq<Candidate>, b: seq<Candidate>, align: Align)
    ensures Matches(a + b, align) == Matches(a, align) + Matches(b, align)
  {
    if a == [] {
      assert a + b == b;
    } else {
      MatchesConcat(a[1..], b, align);
      assert (a + b)[1..] == a[1..] + b;
      Associate(MatchOf(a[0], align), Matches(a[1..], align), Matches(b, align));
    }
  }

  /** The candidates without the one at `i`. */
  ghost function Without(b: seq<Candidate>, i: nat): seq<Candidate>
    requires i < |b|
  {
    b[..i] + b[i + 1..]
  }

  lemma WithoutMultiset(b: seq<Candidate>, i: nat)
    requires i < |b|
    ensures multiset(Without(b, i)) == multiset(b) - multiset{b[i]}
  {
    assert b == b[..i] + [b[i]] + b[i + 1..];
  }

  lemma WithoutMatches(b: seq<Candidate>, i: nat, align: Align)
    requires i < |b|
    ensures multiset(Matches(b, align)) == multiset(MatchOf(b[i], align)) + multiset(Matches(Without(b, i), align))
  {
    MatchesAt(b, i, align);
    MatchesConcat(b[..i], b[i + 1..], align);
    Shuffle(Matches(b[..i], align), MatchOf(b[i], align), Matches(b[i + 1..], align));
  }

  lemma MatchesCons(c: Candidate, rest: seq<Candidate>, align: Align)
    ensures Matches([c] + rest, align) == MatchOf(c, align) + Matches(rest, align)
  {
    assert ([c] + rest)[1..] == rest;
  }

  lemma SplitAt(b: seq<Candidate>, i: nat)
    requires i < |b|
    ensures b == b[..i] + ([b[i]] + b[i + 1..])
  {}

  lemma MatchesAt(b: seq<Candidate>, i: nat, align: Align)
    requires i < |b|
    ensures Matches(b, align) == Matches(b[..i], align) + (MatchOf(b[i], align) + Matches(b[i + 1..], align))
  {
    SplitAt(b, i);
    MatchesConcat(b[..i], [b[i]] + b[i + 1..], align);
    MatchesCons(b[i], b[i + 1..], align);
  }

  lemma Shuffle(a: seq<Match>, b: seq<Match>, c: seq<Match>)
    ensures multiset(a + (b + c)) == multiset(b) + multiset(a + c)
  {}

  lemma {:induction false} MatchesPermute(a: seq<Candidate>, b: seq<Candidate>, align: Align)
    requires multiset(a) == multiset(b)
    ensures multiset(Matches(a, align)) == multiset(Matches(b, align))
    decreases |a|
  {
    if a == [] {
      assert |b| == |multiset(b)|;
    } else {
      assert a[0] in multiset(b);
      var i :| 0 <= i < |b| && b[i] == a[0];
      WithoutMultiset(a, 0);
      WithoutMultiset(b, i);
      MatchesPermute(Without(a, 0), Without(b, i), align);
      WithoutMatches(a, 0, align);
      WithoutMatches(b, i, align);
    }
  }

  lemma {:induction false} MatchOrigin(candidates: seq<Candidate>, align: Align, m: Match)
    requires m in Matches(candidates, align)
    ensures exists i :: 0 <= i < |candidates| && MatchOf(candidates[i], align) == [m]
  {
    if m in MatchOf(candidates[0], align) {
      assert MatchOf(candidates[0], align) == [m];
    } else {
      MatchOrigin(candidates[1..], align, m);
      var i :| 0 <= i < |candidates[1..]| && MatchOf(candidates[1..][i], align) == [m];
      assert candidates[i + 1] == candidates[1..][i];
    }
  }

  lemma MatchOfShape(c: Candidate, align: Align, m: Match)
    requires MatchOf(c, align) == [m]
    ensures m.mediaId == c.mediaId
  {
    assert [m][0] == m;
  }

  lemma TiesAreEqual(candidates: seq<Candidate>, align: Align, a: Match, b: Match)
    requires IdsIdentify(candidates)
    requires a in Matches(candidates, align) && b in Matches(candidates, align) && a.mediaId == b.mediaId
    ensures a == b
  {
    MatchOrigin(candidates, align, a);
    MatchOrigin(candidates, align, b);
    var i :| 0 <= i < |candidates| && MatchOf(candidates[i], align) == [a];
    var j :| 0 <= j < |candidates| && MatchOf(candidates[j], align) == [b];
    MatchOfShape(candidates[i], align, a);
    MatchOfShape(candidates[j], align, b);
    assert candidates[i] == candidates[j];
    assert [a][0] == [b][0];
  }

  lemma MatchesAreSeparated(candidates: seq<Candidate>, align: Align)
    requires IdsIdentify(candidates)
    ensures Separated(multiset(Matches(candidates, align)))
  {
    var all := Matches(candidates, align);
    forall a, b | a in multiset(all) && b in multiset(all) && !Above(a, b) && !Above(b, a) ensures a == b {
      TiesAreEqual(candidates, align, a, b);
    }
  }

  lemma AlignsPermute(a: seq<Candidate>, b: seq<Candidate>, align: Align)
    requires multiset(a) == multiset(b) && Aligns(a, align)
    ensures Aligns(b, align)
  {
    forall i | 0 <= i < |b| ensures align(b[i]).Ok? {
      assert b[i] in multiset(a);
    }
  }

  /** The decision does not depend on the order in which the candidates come, and neither does whether
      there is one: only the text of a failure can. */
  lemma OrderIndependent(a: seq<Candidate>, b: seq<Candidate>, align: Align)
    requires multiset(a) == multiset(b) && IdsIdentify(a)
    ensures Decide(a, align).Ok? <==> Decide(b, align).Ok?
    ensures Decide(a, align).Ok? ==> Decide(a, align) == Decide(b, align)
  {
    CollectExactly(a, align);
    CollectExactly(b, align);
    if Aligns(a, align) {
      AlignsPermute(a, b, align);
      SameRanking(a, b, align);
    } else if Aligns(b, align) {
      AlignsPermute(b, a, align);
    }
  }

  lemma SameRanking(a: seq<Candidate>, b: seq<Candidate>, align: Align)
    requires multiset(a) == multiset(b) && IdsIdentify(a)
    ensures Sort(Matches(a, align)) == Sort(Matches(b, align))
  {
    MatchesPermute(a, b, align);
    MatchesAreSeparated(a, align);
    SortSorts(Matches(a, align));
    SortSorts(Matches(b, align));
    SortedIsUnique(Sort(Matches(a, align)), Sort(Matches(b, align)));
  }

  // ---------------------------------------------------------------- evidence

  /** `kept` are the best of `all`, in order. */
  ghost predicate IsBest(kept: seq<Match>, dropped: seq<Match>, all: seq<Match>) {
    && Sorted(kept)
    && multiset(kept) + multiset(dropped) == multiset(all)
    && |kept| <= MAX_VIDEO_DUPLICATE_MATCHES
    && (dropped != [] ==> |kept| == MAX_VIDEO_DUPLICATE_MATCHES)
    && forall k, d :: k in kept && d in dropped ==> !Above(d, k)
  }

  lemma StrongIsFirst(s: seq<Match>)
    requires Sorted(s) && AnyStrong(s)
    ensures s[0].strong
  {
    var i :| 0 <= i < |s| && s[i].strong;
    if i > 0 { assert !Above(s[i], s[0]); }
  }

  lemma SamePopulation(s: seq<Match>, t: seq<Match>)
    requires multiset(s) == multiset(t)
    ensures AnyStrong(s) <==> AnyStrong(t)
  {
    if AnyStrong(s) {
      var i :| 0 <= i < |s| && s[i].strong;
      assert s[i] in multiset(t);
    }
    if AnyStrong(t) {
      var i :| 0 <= i < |t| && t[i].strong;
      assert t[i] in multiset(s);
    }
  }

  lemma CutIsBest(ranked: seq<Match>, all: seq<Match>, n: nat)
    requires Sorted(ranked) && multiset(ranked) == multiset(all)
    requires n <= |ranked| && n <= MAX_VIDEO_DUPLICATE_MATCHES && (n == MAX_VIDEO_DUPLICATE_MATCHES || n == |ranked|)
    ensures IsBest(ranked[..n], ranked[n..], all)
  {
    assert ranked == ranked[..n] + ranked[n..];
    forall k, d | k in ranked[..n] && d in ranked[n..] ensures !Above(d, k) {
      var i :| 0 <= i < n && ranked[i] == k;
      var j :| n <= j < |ranked| && ranked[j] == d;
    }
  }

  /** The decision over the collected matches. */
  lemma EvidenceMeaning(all: seq<Match>)
    ensures var ranked := Sort(all);
      && (AnyStrong(ranked) <==> AnyStrong(all))
      && (AnyStrong(ranked) ==>
        && ranked != [] && ranked[0].strong
        && (|ranked| <= MAX_VIDEO_DUPLICATE_MATCHES ==> IsBest(ranked, [], all))
        && (|ranked| > MAX_VIDEO_DUPLICATE_MATCHES ==> IsBest(ranked[..3], ranked[3..], all)))
  {
    var ranked := Sort(all);
    SortSorts(all);
    SamePopulation(ranked, all);
    if AnyStrong(ranked) {
      StrongIsFirst(ranked);
      if |ranked| > MAX_VIDEO_DUPLICATE_MATCHES {
        CutIsBest(ranked, all, 3);
      } else {
        CutIsBest(ranked, all, |ranked|);
        assert ranked[..|ranked|] == ranked && ranked[|ranked|..] == [];
      }
    }
  }

  ghost predicate IsDecision(d: Decision, all: seq<Match>) {
    match d
    case NoMatch => !AnyStrong(all)
    case DuplicatePending(kept) =>
      AnyStrong(all) && kept != [] && kept[0].strong && exists dropped :: IsBest(kept, dropped, all)
  }

  /**
    What is decided: a failure exactly when a candidate fails, nothing exactly when no match is strong,
    and otherwise the best three, led by a strong duplicate, with no dropped match above a kept one.
  */
  lemma DecisionMeaning(candidates: seq<Candidate>, align: Align)
    ensures Decide(candidates, align).Err? <==> !Aligns(candidates, align)
    ensures Aligns(candidates, align) ==> IsDecision(Decide(candidates, align).value, Matches(candidates, align))
  {
    CollectExactly(candidates, align);
    EvidenceMeaning(Matches(candidates, align));
  }

  // ---------------------------------------------------------------- in terms of the candidates

  /** The match that an aligned candidate makes, unless it is no duplicate. */
  ghost predicate Made(c: Candidate, align: Align, m: Match) {
    && align(c).Ok? && align(c).value.class_ != NotDuplicate
    && m.mediaId == c.mediaId && m.version == c.version
    && m.sharedTokens == c.sharedTokens && m.overlapBps == c.overlapBps
    && (m.strong <==> align(c).value.class_ == StrongDuplicate)
    && m.scoreBps == align(c).value.scoreBps && m.detail == align(c).value.detail
  }

  /** The first may stand before the second: a strong duplicate before a partial match, then the higher
      score, then more shared tokens, then the smaller id. */
  ghost predicate Precedes(a: Match, b: Match) {
    && (b.strong ==> a.strong)
    && (a.strong == b.strong ==> a.scoreBps >= b.scoreBps)
    && (a.strong == b.strong && a.scoreBps == b.scoreBps ==> a.sharedTokens >= b.sharedTokens)
    && (a.strong == b.strong && a.scoreBps == b.scoreBps && a.sharedTokens == b.sharedTokens ==>
          a.mediaId <= b.mediaId)
  }

  lemma PrecedesExactly(a: Match, b: Match)
    ensures Precedes(a, b) <==> !Above(b, a)
  {}

  lemma MatchOfExactly(c: Candidate, align: Align, m: Match)
    ensures m in MatchOf(c, align) <==> Made(c, align, m)
  {}

  /** Every aligned candidate that is a duplicate makes its match, and there are no others. */
  lemma {:induction false} MatchesExactly(candidates: seq<Candidate>, align: Align, m: Match)
    ensures m in Matches(candidates, align) <==> exists i :: 0 <= i < |candidates| && Made(candidates[i], align, m)
  {
    if candidates != [] {
      MatchOfExactly(candidates[0], align, m);
      MatchesExactly(candidates[1..], align, m);
      if m in Matches(candidates[1..], align) {
        var i :| 0 <= i < |candidates[1..]| && Made(candidates[1..][i], align, m);
        assert Made(candidates[i + 1], align, m);
      }
      if i :| 0 <= i < |candidates| && Made(candidates[i], align, m) {
        if i > 0 { assert Made(candidates[1..][i - 1], align, m); }
      }
    }
  }

  ghost predicate SomeStrong(candidates: seq<Candidate>, align: Align) {
    exists i ::
      0 <= i < |candidates| && align(candidates[i]).Ok? && align(candidates[i]).value.class_ == StrongDuplicate
  }

  lemma StrongExactly(candidates: seq<Candidate>, align: Align)
    ensures AnyStrong(Matches(candidates, align)) <==> SomeStrong(candidates, align)
  {
    var all := Matches(candidates, align);
    if AnyStrong(all) {
      var k :| 0 <= k < |all| && all[k].strong;
      MatchesExactly(candidates, align, all[k]);
    }
    if i :| 0 <= i < |candidates| && align(candidates[i]).Ok?
            && align(candidates[i]).value.class_ == StrongDuplicate {
      var c, a := candidates[i], align(candidates[i]).value;
      var m := Match(c.mediaId, c.version, true, a.scoreBps, c.sharedTokens, c.overlapBps, a.detail);
      assert Made(c, align, m);
      MatchesExactly(candidates, align, m);
    }
  }

  /** The evidence: at most three matches in order, each made by a candidate; a match that is not among them
      was left out for three that may stand before it. */
  ghost predicate IsEvidence(kept: seq<Match>, candidates: seq<Candidate>, align: Align) {
    && 0 < |kept| <= 3
    && (forall i, j :: 0 <= i < j < |kept| ==> Precedes(kept[i], kept[j]))
    && (forall m :: m in kept ==> exists i :: 0 <= i < |candidates| && Made(candidates[i], align, m))
    && (forall i, m :: 0 <= i < |candidates| && Made(candidates[i], align, m) && m !in kept ==>
          |kept| == 3 && forall k :: k in kept ==> Precedes(k, m))
  }

  lemma BestIsEvidence(kept: seq<Match>, dropped: seq<Match>, candidates: seq<Candidate>, align: Align)
    requires IsBest(kept, dropped, Matches(candidates, align)) && kept != []
    ensures IsEvidence(kept, candidates, align)
  {
    var all := Matches(candidates, align);
    forall i, j | 0 <= i < j < |kept| ensures Precedes(kept[i], kept[j]) { PrecedesExactly(kept[i], kept[j]); }
    forall m | m in kept ensures exists i :: 0 <= i < |candidates| && Made(candidates[i], align, m) {
      assert m in multiset(kept) + multiset(dropped);
      assert m in multiset(all);
      MatchesExactly(candidates, align, m);
    }
    forall i, m | 0 <= i < |candidates| && Made(candidates[i], align, m) && m !in kept
      ensures |kept| == 3 && forall k :: k in kept ==> Precedes(k, m)
    {
      MatchesExactly(candidates, align, m);
      assert m in multiset(all);
      assert m in multiset(kept) + multiset(dropped);
      assert m in dropped;
      forall k | k in kept ensures Precedes(k, m) { PrecedesExactly(k, m); }
    }
  }

  /** What is decided, in terms of the candidates and their alignments alone. */
  lemma DecidedExactly(candidates: seq<Candidate>, align: Align)
    requires Aligns(candidates, align)
    ensures var r := Decide(candidates, align);
      && r.Ok? && (r.value.NoMatch? <==> !SomeStrong(candidates, align))
      && (r.value.DuplicatePending? ==> IsEvidence(r.value.matches, candidates, align) && r.value.matches[0].strong)
  {
    DecisionMeaning(candidates, align);
    StrongExactly(candidates, align);
    var r := Decide(candidates, align).value;
    if r.DuplicatePending? {
      var dropped :| IsBest(r.matches, dropped, Matches(candidates, align));
      BestIsEvidence(r.matches, dropped, candidates, align);
    }
  }
}
