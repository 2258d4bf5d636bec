/** Text operations of the Rust standard library that several models need. */
module Text {
  import opened Prelude

  /** char::is_whitespace: the Unicode White_Space property. */
  predicate IsWhitespace(c: char) {
    var u := c as int;
    || 0x09 <= u <= 0x0d || u == 0x20 || u == 0x85 || u == 0xa0 || u == 0x1680
    || 0x2000 <= u <= 0x200a || u == 0x2028 || u == 0x2029 || u == 0x202f || u == 0x205f || u == 0x3000
  }

  /** char::is_control: general category Cc. */
  predicate IsControl(c: char) { c as int <= 0x1f || 0x7f <= c as int <= 0x9f }

  /** The number of whitespace characters at the front. */
  function LeadingSpace(s: string): (n: nat)
    ensures n <= |s| && (n < |s| ==> !IsWhitespace(s[n]))
    ensures forall i :: 0 <= i < n ==> IsWhitespace(s[i])
  {
    if s == [] || !IsWhitespace(s[0]) then 0 else 1 + LeadingSpace(s[1..])
  }

  function TrimStart(s: string): string { s[LeadingSpace(s)..] }

  function TrimEnd(s: string): (r: string)
    ensures r <= s
    ensures r == [] || !IsWhitespace(r[|r| - 1])
    ensures forall i :: |r| <= i < |s| ==> IsWhitespace(s[i])
  {
    if s != [] && IsWhitespace(s[|s| - 1]) then TrimEnd(s[..|s| - 1]) else s
  }

  /** str::trim. */
  function Trim(s: string): string { TrimEnd(TrimStart(s)) }

  predicate Trimmed(s: string) { s == [] || (!IsWhitespace(s[0]) && !IsWhitespace(s[|s| - 1])) }

  lemma TrimIsTrimmed(s: string)
    ensures Trimmed(Trim(s)) && |Trim(s)| <= |s|
    ensures forall c :: c in Trim(s) ==> c in s
  {
    var t := TrimStart(s);
    var r := TrimEnd(t);
    if r != [] { assert r[0] == t[0]; }
  }

  lemma TrimmedIsFixed(s: string)
    requires Trimmed(s)
    ensures Trim(s) == s
  {}

  /** What is trimmed away is whitespace, and only that. */
  lemma TrimEmpty(s: string)
    ensures Trim(s) == [] <==> forall i :: 0 <= i < |s| ==> IsWhitespace(s[i])
  {
    var t := TrimStart(s);
    var n := LeadingSpace(s);
    assert forall i :: n <= i < |s| ==> s[i] == t[i - n];
    if Trim(s) != [] { assert t[0] == s[n]; }
  }

  /** `t` is `s` without the whitespace around it. */
  ghost predicate TrimsTo(s: string, t: string) {
    Trimmed(t) && exists n: nat :: n + |t| <= |s| && Surrounds(s, t, n)
  }

  /** `t` is in `s` at this place, with nothing but whitespace before and after it. */
  ghost predicate Surrounds(s: string, t: string, n: nat)
    requires n + |t| <= |s|
  {
    && s[n..n + |t|] == t
    && (forall i :: 0 <= i < n ==> IsWhitespace(s[i]))
    && forall i :: n + |t| <= i < |s| ==> IsWhitespace(s[i])
  }

  lemma TrimExactly(s: string, t: string)
    ensures Trim(s) == t <==> TrimsTo(s, t)
  {
    TrimSurrounds(s);
    if TrimsTo(s, t) {
      var n: nat :| n + |t| <= |s| && Surrounds(s, t, n);
      if t == [] {
        TrimEmpty(s);
        assert forall i :: 0 <= i < |s| ==> IsWhitespace(s[i]);
      } else {
        assert s[n] == t[0] && s[n + |t| - 1] == t[|t| - 1];
        TrimOnce(s, t, n);
      }
    }
  }

  lemma TrimSurrounds(s: string)
    ensures TrimsTo(s, Trim(s))
  {
    var n, t := LeadingSpace(s), TrimStart(s);
    var r := TrimEnd(t);
    TrimIsTrimmed(s);
    assert s[n..n + |r|] == r;
    forall i | n + |r| <= i < |s| ensures IsWhitespace(s[i]) { assert s[i] == t[i - n]; }
    assert Surrounds(s, r, n);
  }

  lemma TrimOnce(s: string, t: string, n: nat)
    requires t != [] && n + |t| <= |s| && Surrounds(s, t, n) && !IsWhitespace(s[n]) && !IsWhitespace(s[n + |t| - 1])
    ensures Trim(s) == t
  {
    assert LeadingSpace(s) == n;
    var rest := TrimStart(s);
    var r := TrimEnd(rest);
    assert rest[|t| - 1] == s[n + |t| - 1];
    assert |r| >= |t|;
    assert r == rest[..|t|] == s[n..n + |t|];
  }

  function LowerAscii(c: char): char {
    if 'A' <= c <= 'Z' then (c as int + 32) as char else c
  }

  type nibble = x: int | 0 <= x < 16

  /** The value of a hexadecimal digit in either case. */
  function HexValue(c: char): Option<nibble> {
    if '0' <= c <= '9' then Some(c as int - '0' as int)
    else if 'a' <= c <= 'f' then Some(c as int - 'a' as int + 10)
    else if 'A' <= c <= 'F' then Some(c as int - 'A' as int + 10)
    else None
  }

  /** str::to_ascii_lowercase. */
  function ToAsciiLowercase(s: string): (r: string)
    ensures |r| == |s| && forall i :: 0 <= i < |s| ==> r[i] == LowerAscii(s[i])
  {
    seq(|s|, i requires 0 <= i < |s| => LowerAscii(s[i]))
  }

  /** str::eq_ignore_ascii_case. */
  predicate EqIgnoreAsciiCase(a: string, b: string) { ToAsciiLowercase(a) == ToAsciiLowercase(b) }

  /** str::contains. */
  predicate Contains(s: string, part: string) {
    exists i :: 0 <= i <= |s| - |part| && OccursAt(s, part, i)
  }

  predicate OccursAt(s: string, part: string, i: nat)
    requires i <= |s| - |part|
  {
    s[i..i + |part|] == part
  }

  /** The position of the first occurrence of a character, or the length. */
  function IndexOf(s: string, c: char): (n: nat)
    ensures n <= |s| && (n < |s| ==> s[n] == c)
    ensures forall i :: 0 <= i < n ==> s[i] != c
  {
    if s == [] || s[0] == c then 0 else 1 + IndexOf(s[1..], c)
  }
}
