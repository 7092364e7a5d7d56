/** The inference-permit header gate of the Hermes service bridge
    (adapters/hermes-agent/entrypoint.py), with the URL-safe base64 of section 5 of RFC 4648.

    The decoder below accepts what the program's decoder accepts: it takes both alphabets and
    ignores the unused low bits of the last character. */
module PermitHeader {
  import opened Common

  type sextet = x: int | 0 <= x < 64

  datatype Header = Absent | Forwarded(permit: string) | Rejected

  const MAX_PERMIT_BYTES := 32768

  function Digit(v: sextet): char {
    if v < 26 then 'A' + v as char
    else if v < 52 then 'a' + (v - 26) as char
    else if v < 62 then '0' + (v - 52) as char
    else if v == 62 then '-'
    else '_'
  }

  function Value(c: char): Option<sextet> {
    if 'A' <= c <= 'Z' then Some(c as int - 'A' as int)
    else if 'a' <= c <= 'z' then Some(c as int - 'a' as int + 26)
    else if '0' <= c <= '9' then Some(c as int - '0' as int + 52)
    else if c == '-' || c == '+' then Some(62)
    else if c == '_' || c == '/' then Some(63)
    else None
  }

  /** Three bytes as four groups of six bits; a last group of one or two bytes is shorter. */
  function Sextets(raw: seq<byte>): seq<sextet> {
    if |raw| == 0 then []
    else if |raw| == 1 then [raw[0] / 4, raw[0] % 4 * 16]
    else if |raw| == 2 then [raw[0] / 4, raw[0] % 4 * 16 + raw[1] / 16, raw[1] % 16 * 4]
    else [raw[0] / 4, raw[0] % 4 * 16 + raw[1] / 16, raw[1] % 16 * 4 + raw[2] / 64, raw[2] % 64] + Sextets(raw[3..])
  }

  function Bytes(v: seq<sextet>): seq<byte> {
    if |v| < 2 then []
    else
      var a: int, b: int := v[0], v[1];
      if |v| == 2 then [a * 4 + b / 16]
      else
        var c: int := v[2];
        if |v| == 3 then [a * 4 + b / 16, b % 16 * 16 + c / 4]
        else [a * 4 + b / 16, b % 16 * 16 + c / 4, c % 4 * 64 + v[3]] + Bytes(v[4..])
  }

  predicate Digits(s: string) {
    forall i :: 0 <= i < |s| ==> Value(s[i]).Some?
  }

  function Values(s: string): seq<sextet>
    requires Digits(s)
  {
    seq(|s|, i requires 0 <= i < |s| => Value(s[i]).value)
  }

  /** URL-safe encoding without padding. */
  function Encode(raw: seq<byte>): string {
    var v := Sextets(raw);
    seq(|v|, i requires 0 <= i < |v| => Digit(v[i]))
  }

  /** How many `=` complete the last group. */
  function PadCount(n: nat): (r: nat)
    ensures (n + r) % 4 == 0 && r <= 3
    ensures r <= 2 <==> n % 4 != 1
  {
    (4 - n % 4) % 4
  }

  function Padding(n: nat): string
    decreases n
  {
    if n == 0 then "" else Padding(n - 1) + "="
  }

  function StripPadding(s: string): (r: string)
    ensures r <= s && (r == "" || r[|r| - 1] != '=')
    ensures forall i :: |r| <= i < |s| ==> s[i] == '='
  {
    if s != "" && s[|s| - 1] == '=' then StripPadding(s[..|s| - 1]) else s
  }

  /** Digits, then at most two `=`, whole groups of four. */
  function DecodePadded(s: string): Option<seq<byte>> {
    var digits := StripPadding(s);
    if Digits(digits) && |s| - |digits| <= 2 && |s| % 4 == 0 then Some(Bytes(Values(digits))) else None
  }

  function Decode(permit: string): Option<seq<byte>> {
    DecodePadded(permit + Padding(PadCount(|permit|)))
  }

  /** One header value, checked as the bridge checks it. */
  function Gate(permit: string): Option<seq<byte>> {
    if !(0 < |permit| <= (MAX_PERMIT_BYTES * 4 + 2) / 3) then None
    else
      var raw := Decode(permit);
      if raw.None? || raw.value == [] || |raw.value| > MAX_PERMIT_BYTES || Encode(raw.value) != permit then None
      else raw
  }

  function GateHeaders(permits: seq<string>): Header {
    if permits == [] then Absent
    else if |permits| != 1 || Gate(permits[0]).None? then Rejected
    else Forwarded(permits[0])
  }

  // ---------------------------------------------------------------- encoding

  lemma DigitValue(v: sextet)
    ensures Value(Digit(v)) == Some(v) && Digit(v) != '='
  {
  }

  lemma {:induction false} SextetsLength(raw: seq<byte>)
    ensures |Sextets(raw)| == (4 * |raw| + 2) / 3
    ensures |Sextets(raw)| % 4 != 1
  {
    if |raw| < 3 {
    } else {
      SextetsLength(raw[3..]);
    }
  }

  lemma {:induction false} SextetsRoundTrip(raw: seq<byte>)
    ensures Bytes(Sextets(raw)) == raw
  {
    if |raw| < 3 {
    } else {
      SextetsRoundTrip(raw[3..]);
      assert Sextets(raw)[4..] == Sextets(raw[3..]);
      assert raw == [raw[0], raw[1], raw[2]] + raw[3..];
    }
  }

  lemma EncodeIsDigits(raw: seq<byte>)
    ensures Digits(Encode(raw)) && Values(Encode(raw)) == Sextets(raw)
    ensures |Encode(raw)| == |Sextets(raw)|
  {
    var s, v := Encode(raw), Sextets(raw);
    forall i | 0 <= i < |v| ensures Value(s[i]) == Some(v[i]) {
      DigitValue(v[i]);
    }
  }

  lemma {:induction false} PaddingIsPadding(n: nat)
    ensures |Padding(n)| == n && forall i :: 0 <= i < n ==> Padding(n)[i] == '='
  {
    if n == 0 {
    } else {
      PaddingIsPadding(n - 1);
    }
  }

  lemma {:induction false} StripsOne(t: string)
    ensures StripPadding(t + "=") == StripPadding(t)
  {
    assert (t + "=")[..|t|] == t;
  }

  lemma {:induction false} StripsPadding(s: string, n: nat)
    requires s == "" || s[|s| - 1] != '='
    ensures StripPadding(s + Padding(n)) == s
  {
    if n == 0 {
      assert s + Padding(0) == s;
    } else {
      StripsPadding(s, n - 1);
      StripsOne(s + Padding(n - 1));
      assert s + Padding(n) == (s + Padding(n - 1)) + "=";
    }
  }

  /** A string of digits, not one too many, decodes to its bytes. */
  lemma DigitsDecode(s: string)
    requires Digits(s) && |s| % 4 != 1
    ensures Decode(s) == Some(Bytes(Values(s)))
  {
    assert s != "" ==> Value(s[|s| - 1]).Some?;
    PaddingIsPadding(PadCount(|s|));
    StripsPadding(s, PadCount(|s|));
  }

  /** Decoding undoes encoding, for every payload. */
  lemma RoundTrip(raw: seq<byte>)
    ensures Decode(Encode(raw)) == Some(raw)
  {
    EncodeIsDigits(raw);
    SextetsLength(raw);
    SextetsRoundTrip(raw);
    DigitsDecode(Encode(raw));
  }

  // ---------------------------------------------------------------- the gate

  lemma {:induction false} BytesLength(v: seq<sextet>)
    ensures 4 * |Bytes(v)| <= 3 * |v|
  {
    if |v| < 4 {
    } else {
      BytesLength(v[4..]);
    }
  }

  lemma DecodedLength(permit: string)
    requires Decode(permit).Some?
    ensures 4 * |Decode(permit).value| <= 3 * |permit|
  {
    var n := PadCount(|permit|);
    var t := permit + Padding(n);
    PaddingIsPadding(n);
    var digits := StripPadding(t);
    assert |digits| <= |permit|;
    BytesLength(Values(digits));
  }

  /** The header-length bound alone bounds the payload: nothing that short decodes to more than
      the limit, canonical or not, and every payload within the limit has a header that short. */
  lemma LengthBoundIsSizeBound(permit: string, raw: seq<byte>)
    ensures |permit| <= (MAX_PERMIT_BYTES * 4 + 2) / 3 && Decode(permit).Some? ==>
              |Decode(permit).value| <= MAX_PERMIT_BYTES
    ensures |Encode(raw)| <= (MAX_PERMIT_BYTES * 4 + 2) / 3 <==> |raw| <= MAX_PERMIT_BYTES
  {
    EncodeIsDigits(raw);
    SextetsLength(raw);
    if Decode(permit).Some? {
      DecodedLength(permit);
    }
  }

  /** The gate accepts exactly the unpadded encodings of 1 to 32768 bytes, and reads the payload
      back. */
  lemma GateAcceptsExactly(permit: string, raw: seq<byte>)
    ensures Gate(permit) == Some(raw) <==> 1 <= |raw| <= MAX_PERMIT_BYTES && permit == Encode(raw)
  {
    if 1 <= |raw| <= MAX_PERMIT_BYTES && permit == Encode(raw) {
      RoundTrip(raw);
      LengthBoundIsSizeBound(permit, raw);
      EncodeIsDigits(raw);
      SextetsLength(raw);
    }
  }

  /** Accepted headers and payloads correspond one to one. */
  lemma AcceptedHeadersAreDistinct(p: string, q: string)
    requires Gate(p).Some? && Gate(q).Some?
    ensures p == q <==> Gate(p) == Gate(q)
  {
  }

  /** What is forwarded: exactly one header, and an encoding of a payload within the limit. */
  lemma ForwardedExactly(permits: seq<string>)
    ensures GateHeaders(permits).Forwarded? <==>
              |permits| == 1 && exists raw: seq<byte> :: 1 <= |raw| <= MAX_PERMIT_BYTES && permits[0] == Encode(raw)
    ensures GateHeaders(permits).Forwarded? ==> GateHeaders(permits).permit == permits[0]
    ensures GateHeaders(permits) == Absent <==> permits == []
  {
    if |permits| == 1 {
      if raw: seq<byte> :| 1 <= |raw| <= MAX_PERMIT_BYTES && permits[0] == Encode(raw) {
        GateAcceptsExactly(permits[0], raw);
      }
      if Gate(permits[0]).Some? {
        GateAcceptsExactly(permits[0], Gate(permits[0]).value);
      }
    }
  }

  /** The bits that no byte uses are zero. */
  predicate UnusedBitsZero(v: seq<sextet>) {
    && (|v| % 4 == 2 ==> v[|v| - 1] % 16 == 0)
    && (|v| % 4 == 3 ==> v[|v| - 1] % 4 == 0)
  }

  predicate UrlSafe(s: string) {
    Digits(s) && '+' !in s && '/' !in s
  }

  lemma GroupBack(a: int, b: int, c: int, d: int)
    requires 0 <= a < 64 && 0 <= b < 64 && 0 <= c < 64 && 0 <= d < 64
    ensures (a * 4 + b / 16) / 4 == a
    ensures (a * 4 + b / 16) % 4 * 16 + (b % 16 * 16 + c / 4) / 16 == b
    ensures (b % 16 * 16 + c / 4) % 16 * 4 + (c % 4 * 64 + d) / 64 == c
    ensures (c % 4 * 64 + d) % 64 == d
    ensures (a * 4 + b / 16) % 4 * 16 == b <==> b % 16 == 0
    ensures (b % 16 * 16 + c / 4) % 16 * 4 == c <==> c % 4 == 0
  {
  }

  lemma {:induction false} ShortRoundTripIff(v: seq<sextet>)
    requires |v| < 4 && |v| != 1
    ensures Sextets(Bytes(v)) == v <==> UnusedBitsZero(v)
  {
    if |v| == 2 {
      GroupBack(v[0], v[1], 0, 0);
      var raw := Bytes(v);
      assert |raw| == 1;
      assert |Sextets(raw)| == 2 && Sextets(raw)[0] == v[0];
    } else if |v| == 3 {
      GroupBack(v[0], v[1], v[2], 0);
      var raw := Bytes(v);
      assert |raw| == 2;
      assert |Sextets(raw)| == 3 && Sextets(raw)[0] == v[0] && Sextets(raw)[1] == v[1];
    }
  }

  lemma {:induction false} GroupComesBack(v: seq<sextet>)
    requires |v| >= 4
    ensures Sextets(Bytes(v)) == v[..4] + Sextets(Bytes(v[4..]))
  {
    var raw := Bytes(v);
    assert raw[3..] == Bytes(v[4..]);
    GroupBack(v[0], v[1], v[2], v[3]);
    assert Sextets(raw)[..4] == v[..4];
    assert Sextets(raw)[4..] == Sextets(raw[3..]);
  }

  lemma DropGroup(v: seq<sextet>)
    requires |v| >= 4
    ensures |v[4..]| % 4 == |v| % 4
    ensures UnusedBitsZero(v) <==> UnusedBitsZero(v[4..])
  {
  }

  lemma SameAfterGroup(r: seq<sextet>, v: seq<sextet>)
    requires |v| >= 4
    ensures v[..4] + r == v <==> r == v[4..]
  {
    assert (v[..4] + r)[4..] == r;
  }

  lemma {:induction false} BytesRoundTripIff(v: seq<sextet>)
    requires |v| % 4 != 1
    ensures Sextets(Bytes(v)) == v <==> UnusedBitsZero(v)
  {
    if |v| < 4 {
      ShortRoundTripIff(v);
    } else {
      DropGroup(v);
      BytesRoundTripIff(v[4..]);
      GroupComesBack(v);
      SameAfterGroup(Sextets(Bytes(v[4..])), v);
    }
  }

  lemma SpellingIsUnique(s: string, v: seq<sextet>)
    requires UrlSafe(s) && Values(s) == v
    ensures s == seq(|v|, i requires 0 <= i < |v| => Digit(v[i]))
  {
    forall i | 0 <= i < |s| ensures s[i] == Digit(v[i]) {
      assert v[i] == Value(s[i]).value && s[i] != '+' && s[i] != '/';
    }
  }

  /** The decoder alone reads other spellings of a payload: the standard alphabet and set unused
      bits.  The comparison with the re-encoding refuses exactly those, so what the gate accepts
      can be told from the header text. */
  lemma GateAcceptsIff(permit: string)
    ensures Gate(permit).Some? <==>
              && 0 < |permit| <= (MAX_PERMIT_BYTES * 4 + 2) / 3 && |permit| % 4 != 1
              && UrlSafe(permit) && UnusedBitsZero(Values(permit))
  {
    if Gate(permit).Some? {
      AcceptedIsCanonical(permit, Gate(permit).value);
    }
    if 0 < |permit| <= (MAX_PERMIT_BYTES * 4 + 2) / 3 && |permit| % 4 != 1 && UrlSafe(permit) && UnusedBitsZero(Values(permit)) {
      var v := Values(permit);
      DigitsDecode(permit);
      BytesRoundTripIff(v);
      SpellingIsUnique(permit, v);
      LengthBoundIsSizeBound(permit, []);
    }
  }

  lemma AcceptedIsCanonical(permit: string, raw: seq<byte>)
    requires permit == Encode(raw)
    ensures |permit| % 4 != 1 && UrlSafe(permit) && UnusedBitsZero(Values(permit))
  {
    EncodeIsDigits(raw);
    SextetsLength(raw);
    SextetsRoundTrip(raw);
    BytesRoundTripIff(Sextets(raw));
  }
}
