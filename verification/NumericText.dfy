/**
  Numbers as text: hexadecimal digests (crates/media/src/hashing.rs, apps/worker/src/identity.rs) and
  decimal durations (crates/media/src/ffprobe.rs).
*/
module NumericText {
  import opened Prelude
  import opened Text

  // ---------------------------------------------------------------- hexadecimal

  function HexDigit(n: nibble): char {
    if n < 10 then (n + '0' as int) as char else (n - 10 + 'a' as int) as char
  }

  predicate IsHexText(s: string) { forall i :: 0 <= i < |s| ==> HexValue(s[i]).Some? }

  function High(b: byte): nibble { (b as int) / 16 }

  function Low(b: byte): nibble { (b as int) % 16 }

  function Join(high: nibble, low: nibble): byte { (high as int) * 16 + low as int }

  lemma DigitLaws(n: nibble)
    ensures HexValue(HexDigit(n)) == Some(n)
  {}

  lemma LowerLaw(c: char)
    requires HexValue(c).Some?
    ensures HexDigit(HexValue(c).value) == LowerAscii(c)
  {}

  lemma JoinLaws(high: nibble, low: nibble)
    ensures High(Join(high, low)) == high && Low(Join(high, low)) == low
  {}

  lemma SplitLaw(b: byte)
    ensures Join(High(b), Low(b)) == b
  {}

  ghost predicate PairAt(s: string, bytes: seq<byte>, i: nat)
    requires i < |bytes| && 2 * i + 1 < |s|
  {
    HexValue(s[2 * i]) == Some(High(bytes[i])) && HexValue(s[2 * i + 1]) == Some(Low(bytes[i]))
  }

  /** Two digits per byte, high nibble first. */
  ghost predicate IsHexOf(s: string, bytes: seq<byte>) {
    |s| == 2 * |bytes| && forall i :: 0 <= i < |bytes| ==> PairAt(s, bytes, i)
  }

  ghost predicate IsLowerText(s: string) { forall i :: 0 <= i < |s| ==> LowerAscii(s[i]) == s[i] }

  /** One more byte, two more digits. */
  lemma ExtendHex(s: string, bytes: seq<byte>, high: char, low: char, b: byte)
    requires IsHexOf(s, bytes) && HexValue(high) == Some(High(b)) && HexValue(low) == Some(Low(b))
    ensures IsHexOf(s + [high, low], bytes + [b])
  {
    forall i | 0 <= i < |bytes| + 1 ensures PairAt(s + [high, low], bytes + [b], i) {
      if i < |bytes| { assert PairAt(s, bytes, i); }
    }
  }

  /** hex_digest spells the bytes in lower case. */
  method HexDigest(bytes: seq<byte>) returns (value: string)
    ensures IsHexOf(value, bytes) && IsLowerText(value)
  {
    value := "";
    for i := 0 to |bytes|
      invariant IsHexOf(value, bytes[..i]) && IsLowerText(value)
    {
      var high, low := HexDigit(High(bytes[i])), HexDigit(Low(bytes[i]));
      DigitLaws(High(bytes[i]));
      DigitLaws(Low(bytes[i]));
      ExtendHex(value, bytes[..i], high, low, bytes[i]);
      assert bytes[..i + 1] == bytes[..i] + [bytes[i]];
      value := value + [high, low];
    }
    assert bytes[..|bytes|] == bytes;
  }

  lemma DecodeStep(value: string, digest: seq<byte>, b: byte)
    requires 2 * |digest| + 1 < |value|
    requires IsHexOf(value[..2 * |digest|], digest) && IsHexText(value[..2 * |digest|])
    requires HexValue(value[2 * |digest|]) == Some(High(b)) && HexValue(value[2 * |digest| + 1]) == Some(Low(b))
    ensures IsHexOf(value[..2 * |digest| + 2], digest + [b]) && IsHexText(value[..2 * |digest| + 2])
  {
    var n := 2 * |digest|;
    ExtendHex(value[..n], digest, value[n], value[n + 1], b);
    assert value[..n + 2] == value[..n] + [value[n], value[n + 1]];
  }

  /** decode_sha256: exactly the 64-digit strings decode, and to the bytes they spell. */
  method DecodeSha256(value: string) returns (r: Option<seq<byte>>)
    ensures r.Some? <==> |value| == 64 && IsHexText(value)
    ensures r.Some? ==> |r.value| == 32 && IsHexOf(value, r.value)
  {
    if |value| != 64 { return None; }
    var digest: seq<byte> := [];
    for i := 0 to 32
      invariant |digest| == i && IsHexOf(value[..2 * |digest|], digest)
      invariant IsHexText(value[..2 * |digest|])
    {
      var high, low := HexValue(value[2 * i]), HexValue(value[2 * i + 1]);
      if high.None? || low.None? { return None; }
      JoinLaws(high.value, low.value);
      var b := Join(high.value, low.value);
      DecodeStep(value, digest, b);
      digest := digest + [b];
    }
    assert value[..64] == value;
    r := Some(digest);
  }

  /** A spelling determines its bytes. */
  lemma SpellingIsInjective(s: string, a: seq<byte>, b: seq<byte>)
    requires IsHexOf(s, a) && IsHexOf(s, b)
    ensures a == b
  {
    forall i | 0 <= i < |a| ensures a[i] == b[i] {
      assert PairAt(s, a, i) && PairAt(s, b, i);
      SplitLaw(a[i]);
      SplitLaw(b[i]);
    }
  }

  /** Every digit of a spelling is the nibble at its place. */
  lemma DigitOf(s: string, bytes: seq<byte>, k: nat)
    requires IsHexOf(s, bytes) && k < |s|
    ensures k / 2 < |bytes|
    ensures HexValue(s[k]) == Some(if k % 2 == 0 then High(bytes[k / 2]) else Low(bytes[k / 2]))
  {
    assert PairAt(s, bytes, k / 2);
  }

  /** Bytes have one lower-case spelling. */
  lemma LowerSpellingIsUnique(s: string, t: string, bytes: seq<byte>)
    requires IsHexOf(s, bytes) && IsHexOf(t, bytes) && IsLowerText(t)
    ensures t == ToAsciiLowercase(s)
  {
    forall k | 0 <= k < |s| ensures t[k] == LowerAscii(s[k]) {
      DigitOf(s, bytes, k);
      DigitOf(t, bytes, k);
      LowerLaw(s[k]);
      LowerLaw(t[k]);
    }
  }

  /** Decoding inverts encoding on every 32-byte digest. */
  method DigestRoundTrip(digest: seq<byte>) returns (back: Option<seq<byte>>)
    requires |digest| == 32
    ensures back == Some(digest)
  {
    var text := HexDigest(digest);
    forall k | 0 <= k < |text| ensures HexValue(text[k]).Some? { DigitOf(text, digest, k); }
    back := DecodeSha256(text);
    SpellingIsInjective(text, digest, back.value);
  }

  /** Re-encoding what was decoded gives the text in lower case. */
  method TextRoundTrip(text: string) returns (again: Option<string>)
    ensures again == if |text| == 64 && IsHexText(text) then Some(ToAsciiLowercase(text)) else None
  {
    var digest := DecodeSha256(text);
    if digest.None? { return None; }
    var t := HexDigest(digest.value);
    LowerSpellingIsUnique(text, t, digest.value);
    again := Some(t);
  }

  // ---------------------------------------------------------------- decimal

  predicate IsDigit(c: char) { '0' <= c <= '9' }

  predicate AllDigits(s: string) { forall i :: 0 <= i < |s| ==> IsDigit(s[i]) }

  function DigitValue(c: char): (d: nat)
    ensures d < 10
  {
    if IsDigit(c) then c as int - '0' as int else 0
  }

  function Number(s: string): nat {
    if s == [] then 0 else 10 * Number(s[..|s| - 1]) + DigitValue(s[|s| - 1])
  }

  function Pow10(n: nat): (r: nat)
    ensures r > 0
  {
    if n == 0 then 1 else 10 * Pow10(n - 1)
  }

  function Unsigned(s: string): string { if s != [] && s[0] == '+' then s[1..] else s }

  /** str::parse::<u64>: one optional plus sign, then at least one digit. */
  function ParseU64(s: string): Option<nat> {
    var digits := Unsigned(s);
    if digits != [] && AllDigits(digits) && Number(digits) <= U64_MAX then Some(Number(digits)) else None
  }

  function Floor(n: nat, p: nat): nat
    requires p > 0
  {
    n / p
  }

  /** The value of the decimal number whole.fraction in thousandths, rounded down. */
  function Thousandths(whole: string, fraction: string): nat {
    Floor(Number(whole + fraction) * 1000, Pow10(|fraction|))
  }

  // Arithmetic with two variable factors, one fact at a time.

  lemma ShiftStep(x: nat, p: nat, n: nat, d: nat)
    ensures 10 * (x * p + n) + d == x * (10 * p) + (10 * n + d)
  {}

  lemma MulAtLeast(k: int, p: int)
    requires p > 0
    ensures k >= 1 ==> k * p >= p
    ensures k <= -1 ==> k * p <= -p
  {
    if k >= 1 { assert k * p == p + (k - 1) * p; }
    if k <= -1 { assert k * p == -p + (k + 1) * p; }
  }

  /** q is n / p rounded down. */
  predicate IsFloor(q: nat, n: nat, p: nat) { q * p <= n < q * p + p }

  lemma FloorIsQuotient(q: nat, n: nat, p: nat)
    requires p > 0 && IsFloor(q, n, p)
    ensures Floor(n, p) == q
  {
    var d, m := n / p, n % p;
    assert n == p * d + m;
    assert (d - q) * p == (n - q * p) - m;
    MulAtLeast(d - q, p);
  }

  lemma PaddedFloor(v: nat, p: nat, q: nat)
    requires p > 0 && p * q == 1000
    ensures IsFloor(v * q, v * 1000, p)
  {
    assert v * (p * q) == (v * q) * p;
  }

  lemma CutFloor(h: nat, t: nat, p: nat)
    requires t < p
    ensures IsFloor(h, (h * p + t) * 1000, 1000 * p)
  {
    assert (h * p) * 1000 == h * (1000 * p);
  }

  lemma SumFloor(w: nat, v: nat, p: nat, m: nat)
    requires IsFloor(m, v * 1000, p)
    ensures IsFloor(w * 1000 + m, (w * p + v) * 1000, p)
  {
    assert (w * 1000 + m) * p == (w * p) * 1000 + m * p;
  }

  lemma {:induction false} PowSum(m: nat, n: nat)
    ensures Pow10(m + n) == Pow10(m) * Pow10(n)
    decreases n
  {
    if n > 0 {
      PowSum(m, n - 1);
      ShiftStep(Pow10(m), Pow10(n - 1), 0, 0);
    }
  }

  lemma Pow3() ensures Pow10(3) == 1000
  {
    assert Pow10(2) == 100;
  }

  /** Appending digits shifts what was read. */
  lemma {:induction false} NumberConcat(a: string, b: string)
    ensures Number(a + b) == Number(a) * Pow10(|b|) + Number(b)
    decreases |b|
  {
    if b == [] {
      assert a + b == a;
    } else {
      var init, last := b[..|b| - 1], DigitValue(b[|b| - 1]);
      NumberConcat(a, init);
      assert (a + b)[..|a + b| - 1] == a + init;
      ShiftStep(Number(a), Pow10(|init|), Number(init), last);
    }
  }

  lemma {:induction false} NumberBound(s: string)
    ensures Number(s) < Pow10(|s|)
  {
    if s != [] { NumberBound(s[..|s| - 1]); }
  }

  // ---------------------------------------------------------------- durations

  function Zeros(n: nat): (r: string)
    ensures |r| == n && AllDigits(r)
  {
    if n == 0 then "" else Zeros(n - 1) + "0"
  }

  lemma {:induction false} ZerosAreZero(n: nat)
    ensures Number(Zeros(n)) == 0
  {
    if n > 0 {
      ZerosAreZero(n - 1);
      assert Zeros(n)[..n - 1] == Zeros(n - 1);
    }
  }

  /** The first three digits, padded with zeros. */
  function Milliseconds(fraction: string): string {
    if |fraction| <= 3 then fraction + Zeros(3 - |fraction|) else fraction[..3]
  }

  lemma PadValue(f: string, n: nat)
    ensures Number(f + Zeros(n)) == Number(f) * Pow10(n)
  {
    NumberConcat(f, Zeros(n));
    ZerosAreZero(n);
  }

  lemma PowThousand(m: nat, n: nat)
    requires m + n == 3
    ensures Pow10(m) * Pow10(n) == 1000
  {
    PowSum(m, n);
    Pow3();
  }

  lemma PaddedMilliseconds(f: string, n: nat)
    requires |f| + n == 3
    ensures IsFloor(Number(f + Zeros(n)), Number(f) * 1000, Pow10(|f|))
  {
    PadValue(f, n);
    PowThousand(|f|, n);
    PaddedFloor(Number(f), Pow10(|f|), Pow10(n));
  }

  lemma CutMilliseconds(f: string)
    requires |f| > 3
    ensures IsFloor(Number(Milliseconds(f)), Number(f) * 1000, Pow10(|f|))
  {
    var head, tail := f[..3], f[3..];
    assert f == head + tail;
    NumberConcat(head, tail);
    NumberBound(tail);
    PowSum(3, |tail|);
    Pow3();
    CutFloor(Number(head), Number(tail), Pow10(|tail|));
  }

  /** Truncating and padding the fraction computes its thousandths. */
  lemma MillisecondsAreThousandths(f: string)
    ensures IsFloor(Number(Milliseconds(f)), Number(f) * 1000, Pow10(|f|))
    ensures |Milliseconds(f)| == 3
  {
    if |f| <= 3 { PaddedMilliseconds(f, 3 - |f|); } else { CutMilliseconds(f); }
  }

  lemma MillisecondsBound(f: string)
    ensures Number(Milliseconds(f)) < 1000
  {
    NumberBound(Milliseconds(f));
    Pow3();
  }

  /** Whole seconds and milliseconds, read apart, add up to the thousandths of the whole number. */
  lemma ThousandthsSplit(whole: string, f: string)
    ensures Thousandths(whole, f) == Number(whole) * 1000 + Number(Milliseconds(f))
  {
    NumberConcat(whole, f);
    MillisecondsAreThousandths(f);
    SumFloor(Number(whole), Number(f), Pow10(|f|), Number(Milliseconds(f)));
    FloorIsQuotient(Number(whole) * 1000 + Number(Milliseconds(f)), Number(whole + f) * 1000, Pow10(|f|));
  }

  lemma MillisecondsAreDigits(f: string)
    requires AllDigits(f)
    ensures AllDigits(Milliseconds(f))
  {}

  /** usable_value: trimmed, and neither empty nor "n/a". */
  function UsableValue(value: Option<string>): Option<string> {
    if value.None? then None
    else
      var v := Trim(value.value);
      if v == [] || EqIgnoreAsciiCase(v, "n/a") then None else Some(v)
  }

  /** The text before the first point, and the text after it. */
  function WholePart(v: string): string { v[..IndexOf(v, '.')] }

  function FractionPart(v: string): string {
    var n := IndexOf(v, '.');
    if n < |v| then v[n + 1..] else ""
  }

  predicate IsDecimal(v: string) {
    Unsigned(WholePart(v)) != [] && AllDigits(Unsigned(WholePart(v))) && AllDigits(FractionPart(v))
  }

  /** The value of a decimal text in milliseconds, if it is one and fits 64 bits. */
  function Duration(v: string): Option<nat> {
    var n := Thousandths(Unsigned(WholePart(v)), FractionPart(v));
    if IsDecimal(v) && n <= U64_MAX then Some(n) else None
  }

  /** The padding loop. */
  method Pad(fraction: string) returns (milliseconds: string)
    ensures milliseconds == Milliseconds(fraction)
  {
    milliseconds := if |fraction| > 3 then fraction[..3] else fraction;
    ghost var head := milliseconds;
    while |milliseconds| < 3
      invariant |head| <= |milliseconds| <= 3 && milliseconds == head + Zeros(|milliseconds| - |head|)
    {
      milliseconds := milliseconds + "0";
    }
  }

  /** The reading in the checked steps that the source takes. */
  function Checked(v: string): Option<nat> {
    var w, f := ParseU64(WholePart(v)), FractionPart(v);
    var ms := ParseU64(Milliseconds(f));
    if w.Some? && AllDigits(f) && ms.Some? && w.value * 1000 + ms.value <= U64_MAX
    then Some(w.value * 1000 + ms.value) else None
  }

  /** The checked steps succeed together exactly when the total fits. */
  lemma CheckedIsDuration(v: string)
    ensures Checked(v) == Duration(v)
  {
    var w, f := Unsigned(WholePart(v)), FractionPart(v);
    ThousandthsSplit(w, f);
    MillisecondsBound(f);
    MillisecondsAreThousandths(f);
    if AllDigits(f) {
      MillisecondsAreDigits(f);
      assert IsDigit(Milliseconds(f)[0]);
    }
  }

  method ParseUsable(value: string) returns (r: Option<nat>)
    ensures r == Checked(value)
  {
    var whole := ParseU64(WholePart(value));
    var fraction := FractionPart(value);
    if whole.None? { return None; }
    if !AllDigits(fraction) { return None; }
    var padded := Pad(fraction);
    var milliseconds := ParseU64(padded);
    if milliseconds.None? { return None; }
    if whole.value * 1000 > U64_MAX { return None; }
    if whole.value * 1000 + milliseconds.value > U64_MAX { return None; }
    r := Some(whole.value * 1000 + milliseconds.value);
  }

  /**
    parse_duration reads w.f as floor(1000 * w.f) milliseconds, and fails exactly when the text is not
    such a number or that value does not fit 64 bits.
  */
  method ParseDuration(value: Option<string>) returns (r: Result<Option<nat>, ()>)
    ensures r == match UsableValue(value)
                 case None => Ok(None)
                 case Some(v) => if Duration(v).Some? then Ok(Duration(v)) else Err(())
  {
    var usable := UsableValue(value);
    if usable.None? { return Ok(None); }
    CheckedIsDuration(usable.value);
    var duration := ParseUsable(usable.value);
    r := if duration.Some? then Ok(duration) else Err(());
  }
}
