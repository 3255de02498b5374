/**
  What a correlation id looks like, and the id the admin client makes up from
  the clock when Web Crypto is missing.
 */
module CorrelationId {
  // ---- the pattern

  predicate HexDigit(c: char) {
    '0' <= c <= '9' || 'a' <= c <= 'f' || 'A' <= c <= 'F'
  }

  predicate DashAt(i: int) {
    i == 8 || i == 13 || i == 18 || i == 23
  }

  /** `CORRELATION_ID_PATTERN`: groups of 8, 4, 4, 4 and 12 hex digits, in either case. */
  predicate IsValid(s: string) {
    |s| == 36 && forall i :: 0 <= i < 36 ==> if DashAt(i) then s[i] == '-' else HexDigit(s[i])
  }

  lemma HexDigitsWrittenOut(c: char)
    ensures HexDigit(c) <==> c in "0123456789abcdefABCDEF"
  {
  }

  predicate AllHex(s: string) {
    forall c :: c in s ==> c in "0123456789abcdefABCDEF"
  }

  /** The pattern, group by group. */
  lemma ValidIffGroups(s: string)
    ensures IsValid(s)
       <==> exists a, b, c, d, e ::
              && |a| == 8 && |b| == 4 && |c| == 4 && |d| == 4 && |e| == 12
              && AllHex(a) && AllHex(b) && AllHex(c) && AllHex(d) && AllHex(e)
              && s == a + "-" + b + "-" + c + "-" + d + "-" + e
  {
    if IsValid(s) {
      GroupsOfValid(s);
    }
    forall a, b, c, d, e | && |a| == 8 && |b| == 4 && |c| == 4 && |d| == 4 && |e| == 12
                           && AllHex(a) && AllHex(b) && AllHex(c) && AllHex(d) && AllHex(e)
                           && s == a + "-" + b + "-" + c + "-" + d + "-" + e
      ensures IsValid(s)
    {
      GroupsAreValid(a, b, c, d, e);
    }
  }

  lemma GroupsOfValid(s: string)
    requires IsValid(s)
    ensures s == s[..8] + "-" + s[9..13] + "-" + s[14..18] + "-" + s[19..23] + "-" + s[24..]
    ensures AllHex(s[..8]) && AllHex(s[9..13]) && AllHex(s[14..18]) && AllHex(s[19..23]) && AllHex(s[24..])
  {
    forall i | 0 <= i < 36 && !DashAt(i) ensures s[i] in "0123456789abcdefABCDEF" {
      HexDigitsWrittenOut(s[i]);
    }
    assert s[8] == s[13] == s[18] == s[23] == '-';
  }

  lemma GroupsAreValid(a: string, b: string, c: string, d: string, e: string)
    requires |a| == 8 && |b| == 4 && |c| == 4 && |d| == 4 && |e| == 12
    requires AllHex(a) && AllHex(b) && AllHex(c) && AllHex(d) && AllHex(e)
    ensures IsValid(a + "-" + b + "-" + c + "-" + d + "-" + e)
  {
    var s := a + "-" + b + "-" + c + "-" + d + "-" + e;
    forall i | 0 <= i < 36 ensures if DashAt(i) then s[i] == '-' else HexDigit(s[i]) {
      HexDigitsWrittenOut(s[i]);
      if i < 8 {
        assert s[i] == a[i] && a[i] in a;
      } else if 8 < i < 13 {
        assert s[i] == b[i - 9] && b[i - 9] in b;
      } else if 13 < i < 18 {
        assert s[i] == c[i - 14] && c[i - 14] in c;
      } else if 18 < i < 23 {
        assert s[i] == d[i - 19] && d[i - 19] in d;
      } else if i > 23 {
        assert s[i] == e[i - 24] && e[i - 24] in e;
      }
    }
  }

  // ---- numbers in base 16

  function DigitChar(d: nat): (c: char)
    requires d < 16
    ensures Lower(c) && DigitValue(c) == d
  {
    if d < 10 then '0' + d as char else 'a' + (d - 10) as char
  }

  /** The digits in their order. */
  lemma DigitsWrittenOut(d: nat)
    requires d < 16
    ensures DigitChar(d) == "0123456789abcdef"[d]
  {
  }

  predicate Lower(c: char) {
    '0' <= c <= '9' || 'a' <= c <= 'f'
  }

  function DigitValue(c: char): (d: nat)
    requires Lower(c)
    ensures d < 16
  {
    if c <= '9' then (c - '0') as nat else (c - 'a') as nat + 10
  }

  predicate LowerHex(s: string) {
    forall i :: 0 <= i < |s| ==> Lower(s[i])
  }

  /** `toString(16)`. */
  function ToHex(n: nat): (s: string)
    ensures LowerHex(s) && s != "" && ValueOf(s) == n
  {
    if n < 16 then [DigitChar(n)] else ToHex(n / 16) + [DigitChar(n % 16)]
  }

  function ValueOf(s: string): nat
    requires LowerHex(s)
  {
    if s == "" then 0 else 16 * ValueOf(s[..|s| - 1]) + DigitValue(s[|s| - 1])
  }

  function Power16(n: nat): (p: nat)
    ensures p > 0
  {
    if n == 0 then 1 else 16 * Power16(n - 1)
  }

  function Zeros(n: nat): (s: string)
    ensures |s| == n && LowerHex(s) && ValueOf(s) == 0
  {
    if n == 0 then "" else Zeros(n - 1) + "0"
  }

  /** `padStart(width, '0')`. */
  function PadStart(s: string, width: nat): (r: string)
    ensures |r| >= width
  {
    if |s| >= width then s else Zeros(width - |s|) + s
  }

  /** `slice(-width)`. */
  function LastChars(s: string, width: nat): string {
    if |s| <= width then s else s[|s| - width..]
  }

  lemma {:induction false} ValueOfConcat(a: string, b: string)
    requires LowerHex(a) && LowerHex(b)
    ensures LowerHex(a + b) && ValueOf(a + b) == ValueOf(a) * Power16(|b|) + ValueOf(b)
  {
    if b == "" {
      assert a + b == a;
    } else {
      var n := |b| - 1;
      assert (a + b)[..|a| + n] == a + b[..n];
      assert (a + b)[|a| + n] == b[n];
      ValueOfConcat(a, b[..n]);
      Regroup(ValueOf(a), Power16(n), ValueOf(b[..n]), DigitValue(b[n]));
    }
  }

  lemma Regroup(x: nat, p: nat, y: nat, d: nat)
    ensures 16 * (x * p + y) + d == x * (16 * p) + (16 * y + d)
  {
  }

  lemma {:induction false} ValueBelowPower(s: string)
    requires LowerHex(s)
    ensures ValueOf(s) < Power16(|s|)
  {
    if s != "" {
      ValueBelowPower(s[..|s| - 1]);
    }
  }

  /** Among numerals of one length, the value determines the numeral. */
  lemma {:induction false} ValueDeterminesNumeral(a: string, b: string)
    requires LowerHex(a) && LowerHex(b) && |a| == |b| && ValueOf(a) == ValueOf(b)
    ensures a == b
  {
    if a != "" {
      var n := |a| - 1;
      assert DigitValue(a[n]) == DigitValue(b[n]) && ValueOf(a[..n]) == ValueOf(b[..n]);
      ValueDeterminesNumeral(a[..n], b[..n]);
      assert a == a[..n] + [a[n]] && b == b[..n] + [b[n]];
    }
  }

  lemma ModuloUnique(q: nat, p: nat, r: nat)
    requires r < p
    ensures (q * p + r) % p == r
  {
    if q > 0 {
      ModuloUnique(q - 1, p, r);
      assert q * p + r == (q - 1) * p + r + p;
      assert ((q - 1) * p + r + p) % p == ((q - 1) * p + r) % p by {
        ShiftModulo((q - 1) * p + r, p);
      }
    } else {
      assert q * p == 0;
      SmallModulo(r, p);
    }
  }

  lemma ShiftModulo(x: nat, p: nat)
    requires p > 0
    ensures (x + p) % p == x % p
  {
    var d := (x + p) / p - x / p;
    assert p * (d - 1) == x % p - (x + p) % p;
    if d != 1 {
      MultipleIsFar(p, d - 1);
      assert false;
    }
  }

  lemma {:induction false} MultipleIsFar(p: int, k: int)
    requires p > 0 && k != 0
    ensures p * k >= p || p * k <= -p
    decreases if k > 0 then k else -k
  {
    if k > 1 {
      MultipleIsFar(p, k - 1);
      assert p * k == p * (k - 1) + p;
    } else if k < -1 {
      MultipleIsFar(p, k + 1);
      assert p * k == p * (k + 1) - p;
    }
  }

  lemma SmallModulo(r: nat, p: nat)
    requires r < p
    ensures r % p == r
  {
  }

  /** The last digits denote the value modulo that power of 16. */
  lemma LastCharsDenoteModulo(s: string, width: nat)
    requires LowerHex(s) && |s| >= width
    ensures |LastChars(s, width)| == width && LowerHex(LastChars(s, width))
    ensures ValueOf(LastChars(s, width)) == ValueOf(s) % Power16(width)
  {
    var head, tail := s[..|s| - width], s[|s| - width..];
    assert s == head + tail;
    assert LastChars(s, width) == tail;
    ValueOfConcat(head, tail);
    ValueBelowPower(tail);
    ModuloUnique(ValueOf(head), Power16(width), ValueOf(tail));
  }

  // ---- the fallback id

  function ClockDigits(t: nat): string {
    LastChars(PadStart(ToHex(t), 12), 12)
  }

  const PREFIX := "00000000-0000-4000-8000-"

  /** The id for clock reading `t`. */
  function FallbackId(t: nat): string {
    PREFIX + ClockDigits(t)
  }

  lemma PrefixShape(i: nat)
    requires i < 24
    ensures |PREFIX| == 24 && PREFIX[14] == '4' && PREFIX[19] == '8'
    ensures if DashAt(i) then PREFIX[i] == '-' else HexDigit(PREFIX[i])
  {
  }

  lemma ClockDigitsDenote(t: nat)
    ensures |ClockDigits(t)| == 12 && LowerHex(ClockDigits(t))
    ensures ValueOf(ClockDigits(t)) == t % Power16(12)
  {
    PadKeepsValue(ToHex(t), 12);
    LastCharsDenoteModulo(PadStart(ToHex(t), 12), 12);
  }

  lemma PadKeepsValue(s: string, width: nat)
    requires LowerHex(s)
    ensures LowerHex(PadStart(s, width)) && ValueOf(PadStart(s, width)) == ValueOf(s)
  {
    if |s| < width {
      var zeros := Zeros(width - |s|);
      ValueOfConcat(zeros, s);
      assert ValueOf(zeros) * Power16(|s|) == 0;
    }
  }

  /**
    For every clock reading the id matches the pattern, is of version 4 and of
    the RFC variant (section 5.4 of RFC 9562), and its last twelve digits
    denote the reading modulo 16^12.
   */
  lemma FallbackIdIsUuid(t: nat)
    ensures IsValid(FallbackId(t))
    ensures FallbackId(t)[14] == '4' && FallbackId(t)[19] == '8'
    ensures FallbackId(t)[..24] == "00000000-0000-4000-8000-"
    ensures LowerHex(FallbackId(t)[24..]) && ValueOf(FallbackId(t)[24..]) == t % Power16(12)
  {
    ClockDigitsDenote(t);
    PrefixShape(0);
    var id := FallbackId(t);
    assert id[24..] == ClockDigits(t);
    forall i | 0 <= i < 36 ensures if DashAt(i) then id[i] == '-' else HexDigit(id[i]) {
      if i < 24 {
        PrefixShape(i);
      } else {
        assert id[i] == ClockDigits(t)[i - 24];
      }
    }
  }

  /** Two readings give the same id exactly when they are congruent modulo 16^12. */
  lemma FallbackIdsCollideIff(t: nat, u: nat)
    ensures FallbackId(t) == FallbackId(u) <==> t % Power16(12) == u % Power16(12)
  {
    FallbackIdIsUuid(t);
    FallbackIdIsUuid(u);
    ClockDigitsDenote(t);
    ClockDigitsDenote(u);
    if t % Power16(12) == u % Power16(12) {
      ValueDeterminesNumeral(ClockDigits(t), ClockDigits(u));
    }
  }
}
