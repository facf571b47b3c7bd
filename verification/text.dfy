/** String helpers the application takes from the JavaScript runtime: decimal
    rendering and `parseInt` of integers (template literals, `toString`,
    `toFixed`, query parameters), and the
    `trim`/`lowercase` setters the user schema applies to names and e-mails. */
module Text {
  import opened Common

  predicate IsDigit(c: char) {
    '0' <= c <= '9'
  }

  predicate AllDigits(s: string) {
    forall k :: 0 <= k < |s| ==> IsDigit(s[k])
  }

  function DigitChar(d: nat): (c: char)
    requires d < 10
    ensures IsDigit(c)
  {
    (48 + d) as char
  }

  function DigitValue(c: char): nat
    requires IsDigit(c)
  {
    (c as int - 48) as nat
  }

  /** Decimal rendering of a natural number, as `String(n)` prints it. */
  function NatToString(n: nat): (r: string)
    ensures |r| >= 1 && AllDigits(r)
    ensures r[0] == '0' ==> n == 0
    decreases n
  {
    if n < 10 then [DigitChar(n)] else NatToString(n / 10) + [DigitChar(n % 10)]
  }

  /** Decimal rendering of an integer, with a leading minus sign when negative. */
  function IntToString(i: int): string {
    if i < 0 then "-" + NatToString(-i) else NatToString(i)
  }

  /** Reads a string of decimal digits back as a number. */
  function ParseNat(s: string): nat
    requires AllDigits(s)
    decreases |s|
  {
    if |s| == 0 then 0 else 10 * ParseNat(s[..|s| - 1]) + DigitValue(s[|s| - 1])
  }

  /** Rendering a number and reading it back gives the number: the decimal
      text printed by the application identifies the value. */
  lemma {:induction false} NatToStringRoundTrip(n: nat)
    ensures ParseNat(NatToString(n)) == n
    decreases n
  {
    if n >= 10 {
      var prefix := NatToString(n / 10);
      var s := prefix + [DigitChar(n % 10)];
      assert s[..|s| - 1] == prefix;
      NatToStringRoundTrip(n / 10);
    }
  }

  /** Distinct numbers render as distinct strings. */
  lemma NatToStringInjective(a: nat, b: nat)
    requires NatToString(a) == NatToString(b)
    ensures a == b
  {
    NatToStringRoundTrip(a);
    NatToStringRoundTrip(b);
  }

  /** How many decimal digits `s` starts with. */
  function DigitRun(s: string): (n: nat)
    ensures n <= |s| && AllDigits(s[..n])
    ensures n < |s| ==> !IsDigit(s[n])
    decreases |s|
  {
    if |s| > 0 && IsDigit(s[0]) then
      var rest := DigitRun(s[1..]);
      assert s[..1 + rest] == [s[0]] + s[1..][..rest];
      1 + rest
    else 0
  }

  /** Whether the text `parseInt` reads starts with a minus sign. */
  predicate Negative(s: string) {
    var t := TrimStart(s);
    |t| > 0 && t[0] == '-'
  }

  /** What `parseInt` reads digits from: `s` without its leading white space
      and without one sign character. */
  function Unsigned(s: string): (body: string)
    ensures |body| <= |s|
  {
    var t := TrimStart(s);
    if |t| > 0 && (t[0] == '-' || t[0] == '+') then t[1..] else t
  }

  /** `parseInt(s, 10)`: leading white space is skipped, then an optional
      sign, then the longest run of digits; no digit at all gives NaN. */
  function ParseInt(s: string): (r: Num)
    ensures r.Int? <==> |Unsigned(s)| > 0 && IsDigit(Unsigned(s)[0])
  {
    var body := Unsigned(s);
    var n := DigitRun(body);
    if n == 0 then NaN
    else
      var v: int := ParseNat(body[..n]);
      Int(if Negative(s) then -v else v)
  }

  predicate IsHexDigit(c: char) {
    IsDigit(c) || 'a' <= c <= 'f' || 'A' <= c <= 'F'
  }

  predicate AllHex(s: string) {
    forall k :: 0 <= k < |s| ==> IsHexDigit(s[k])
  }

  function HexValue(c: char): (v: nat)
    requires IsHexDigit(c)
    ensures v < 16
  {
    if IsDigit(c) then DigitValue(c)
    else if 'a' <= c <= 'f' then (c as int - 'a' as int + 10) as nat
    else (c as int - 'A' as int + 10) as nat
  }

  /** Reads a string of hexadecimal digits as a number. */
  function ParseHex(s: string): nat
    requires AllHex(s)
    decreases |s|
  {
    if |s| == 0 then 0 else 16 * ParseHex(s[..|s| - 1]) + HexValue(s[|s| - 1])
  }

  /** How many hexadecimal digits `s` starts with. */
  function HexRun(s: string): (n: nat)
    ensures n <= |s| && AllHex(s[..n])
    ensures n < |s| ==> !IsHexDigit(s[n])
    decreases |s|
  {
    if |s| > 0 && IsHexDigit(s[0]) then
      var rest := HexRun(s[1..]);
      assert s[..1 + rest] == [s[0]] + s[1..][..rest];
      1 + rest
    else 0
  }

  /** The "0x" or "0X" prefix that switches `parseInt` without a radix to
      base 16. */
  predicate HasHexPrefix(body: string) {
    |body| >= 2 && body[0] == '0' && (body[1] == 'x' || body[1] == 'X')
  }

  /** `parseInt(s)` with no radix: as `parseInt(s, 10)`, except that a
      "0x"/"0X" prefix after the sign makes the digits that follow it
      hexadecimal; the prefix with no hexadecimal digit after it gives NaN. */
  function ParseIntAnyRadix(s: string): (r: Num)
    ensures !HasHexPrefix(Unsigned(s)) ==> r == ParseInt(s)
    ensures HasHexPrefix(Unsigned(s)) ==> (r.Int? <==> |Unsigned(s)| > 2 && IsHexDigit(Unsigned(s)[2]))
    ensures HasHexPrefix(Unsigned(s)) && r.Int? ==> (r.v < 0 <==> Negative(s) && r.v != 0)
  {
    var body := Unsigned(s);
    if !HasHexPrefix(body) then ParseInt(s)
    else
      var digits := body[2..];
      var n := HexRun(digits);
      if n == 0 then NaN
      else
        var v: int := ParseHex(digits[..n]);
        Int(if Negative(s) then -v else v)
  }

  /** With a "0x" prefix the longest run of hexadecimal digits is read, and
      reading stops at the first character that is not one. */
  lemma HexPrefixReadsHex(d: string, t: string)
    requires |d| > 0 && AllHex(d)
    requires t == [] || !IsHexDigit(t[0])
    ensures ParseIntAnyRadix("0x" + d + t) == Int(ParseHex(d))
  {
    var rest := d + t;
    var s := "0x" + rest;
    assert "0x" + d + t == s;
    HexTextShape(rest);
    assert HasHexPrefix(Unsigned(s));
    HexRunOfPrefix(d, t);
    assert rest[..|d|] == d;
  }

  /** Text that starts with "0x" is read from its first character on. */
  lemma HexTextShape(rest: string)
    ensures Unsigned("0x" + rest) == "0x" + rest && !Negative("0x" + rest)
    ensures ("0x" + rest)[2..] == rest
  {
    var s := "0x" + rest;
    assert s[0] == '0';
    assert TrimStart(s) == s;
    var digits := s[2..];
    assert forall k :: 0 <= k < |rest| ==> digits[k] == rest[k];
  }

  lemma {:induction false} HexRunOfPrefix(d: string, t: string)
    requires AllHex(d)
    requires t == [] || !IsHexDigit(t[0])
    ensures HexRun(d + t) == |d|
    decreases |d|
  {
    if |d| > 0 {
      assert (d + t)[1..] == d[1..] + t;
      HexRunOfPrefix(d[1..], t);
    }
  }

  /** Decimal text never carries the hexadecimal prefix, so the radix-less
      `parseInt` reads every printed integer back as itself. */
  lemma IntToStringReadsBackAnyRadix(i: int)
    ensures ParseIntAnyRadix(IntToString(i)) == Int(i)
  {
    var s := IntToString(i);
    var digits := NatToString(if i < 0 then -i else i);
    assert TrimStart(s) == s;
    assert Unsigned(s) == digits;
    assert |digits| >= 2 ==> IsDigit(digits[1]);
    IntToStringRoundTrip(i);
  }

  /** Every integer printed in decimal reads back as itself. */
  lemma IntToStringRoundTrip(i: int)
    ensures ParseInt(IntToString(i)) == Int(i)
  {
    var s := IntToString(i);
    var digits := NatToString(if i < 0 then -i else i);
    assert TrimStart(s) == s;
    var body := Unsigned(s);
    assert body == digits;
    AllDigitsRun(digits);
    assert body[..|digits|] == digits;
    NatToStringRoundTrip(if i < 0 then -i else i);
  }

  lemma {:induction false} AllDigitsRun(s: string)
    requires AllDigits(s)
    ensures DigitRun(s) == |s|
    decreases |s|
  {
    if |s| > 0 {
      AllDigitsRun(s[1..]);
    }
  }

  /** A run of digits followed by something that is not a digit is read up to
      its end and no further. */
  lemma {:induction false} DigitRunOfPrefix(d: string, t: string)
    requires AllDigits(d)
    requires t == [] || !IsDigit(t[0])
    ensures DigitRun(d + t) == |d|
    decreases |d|
  {
    if |d| > 0 {
      assert (d + t)[1..] == d[1..] + t;
      DigitRunOfPrefix(d[1..], t);
    }
  }

  /** The white-space characters of `String.prototype.trim` that the model
      knows: the ASCII ones, no-break space and the byte-order mark.  The
      other Unicode space separators and the line and paragraph separators,
      which `trim` also removes, are not in this set. */
  predicate IsSpace(c: char) {
    c == ' ' || c == '\t' || c == '\n' || c == '\r' || c == '\U{000B}' || c == '\U{000C}'
    || c == '\U{00A0}' || c == '\U{FEFF}'
  }

  function TrimStart(s: string): (r: string)
    ensures |r| <= |s| && r == s[|s| - |r|..]
    ensures forall k :: 0 <= k < |s| - |r| ==> IsSpace(s[k])
    ensures r == [] || !IsSpace(r[0])
    decreases |s|
  {
    if |s| > 0 && IsSpace(s[0]) then TrimStart(s[1..]) else s
  }

  function TrimEnd(s: string): (r: string)
    ensures |r| <= |s| && r == s[..|r|]
    ensures forall k :: |r| <= k < |s| ==> IsSpace(s[k])
    ensures r == [] || !IsSpace(r[|r| - 1])
    decreases |s|
  {
    if |s| > 0 && IsSpace(s[|s| - 1]) then TrimEnd(s[..|s| - 1]) else s
  }

  /** How many leading white-space characters `trim` drops. */
  function LeadingSpaces(s: string): nat {
    |s| - |TrimStart(s)|
  }

  /** `s.trim()`: the result is the middle of `s`, and everything dropped
      before and after it is white space. */
  function Trim(s: string): (r: string)
    ensures LeadingSpaces(s) + |r| <= |s|
    ensures r == s[LeadingSpaces(s)..LeadingSpaces(s) + |r|]
    ensures forall k :: 0 <= k < LeadingSpaces(s) ==> IsSpace(s[k])
    ensures forall k :: LeadingSpaces(s) + |r| <= k < |s| ==> IsSpace(s[k])
    ensures r == [] || (!IsSpace(r[0]) && !IsSpace(r[|r| - 1]))
  {
    var t := TrimStart(s);
    var r := TrimEnd(t);
    MiddleOf(s, t, r);
    r
  }

  /** Where the end-trimmed rest of a string sits inside it. */
  lemma MiddleOf(s: string, t: string, r: string)
    requires |t| <= |s| && t == s[|s| - |t|..]
    requires |r| <= |t| && r == t[..|r|]
    requires forall k :: |r| <= k < |t| ==> IsSpace(t[k])
    ensures r == s[|s| - |t|..|s| - |t| + |r|]
    ensures forall k :: |s| - |t| + |r| <= k < |s| ==> IsSpace(s[k])
  {
    var n := |s| - |t|;
    forall k | n + |r| <= k < |s|
      ensures IsSpace(s[k])
    {
      assert s[k] == t[k - n];
    }
  }

  /** A string with no surrounding white space is its own trim. */
  lemma TrimOfTrimmed(s: string)
    requires s == [] || (!IsSpace(s[0]) && !IsSpace(s[|s| - 1]))
    ensures Trim(s) == s
  {
  }

  /** Trimming twice is trimming once, so re-saving a user keeps its name. */
  lemma TrimIdempotent(s: string)
    ensures Trim(Trim(s)) == Trim(s)
  {
    TrimOfTrimmed(Trim(s));
  }

  function LowerChar(c: char): char {
    if 'A' <= c <= 'Z' then (c as int + 32) as char else c
  }

  /** `s.toLowerCase()` on the ASCII letters. */
  function ToLower(s: string): (r: string)
    ensures |r| == |s|
    ensures forall k :: 0 <= k < |s| ==> r[k] == LowerChar(s[k])
  {
    seq(|s|, k requires 0 <= k < |s| => LowerChar(s[k]))
  }

  /** Lower-casing twice is lower-casing once. */
  lemma ToLowerIdempotent(s: string)
    ensures ToLower(ToLower(s)) == ToLower(s)
  {
  }

  /** How many UTF-16 code units encode `c`: two (a surrogate pair) for a
      character outside the Basic Multilingual Plane, one otherwise. */
  function Utf16Units(c: char): nat {
    if c as int >= 0x1_0000 then 2 else 1
  }

  /** `s.length`: JavaScript strings, and so the `minlength`/`maxlength`
      validators and `min` checks of the schemas, count UTF-16 code units,
      not characters. */
  function Utf16Length(s: string): (n: nat)
    ensures |s| <= n <= 2 * |s|
    ensures n == |s| <==> forall k :: 0 <= k < |s| ==> s[k] as int < 0x1_0000
    ensures n == 2 * |s| <==> forall k :: 0 <= k < |s| ==> s[k] as int >= 0x1_0000
    decreases |s|
  {
    if |s| == 0 then 0
    else
      var rest := Utf16Length(s[1..]);
      assert forall k :: 1 <= k < |s| ==> s[k] == s[1..][k - 1];
      Utf16Units(s[0]) + rest
  }

  predicate IsHighSurrogate(u: int) { 0xD800 <= u < 0xDC00 }
  predicate IsLowSurrogate(u: int) { 0xDC00 <= u < 0xE000 }

  /** The UTF-16 encoding of one character. */
  function EncodeChar(c: char): (u: seq<int>)
    ensures |u| == Utf16Units(c)
    ensures |u| == 1 ==> u[0] == c as int && !IsHighSurrogate(u[0]) && !IsLowSurrogate(u[0])
    ensures |u| == 2 ==> IsHighSurrogate(u[0]) && IsLowSurrogate(u[1])
  {
    var v := c as int;
    if v < 0x1_0000 then [v]
    else [0xD800 + (v - 0x1_0000) / 0x400, 0xDC00 + (v - 0x1_0000) % 0x400]
  }

  /** The code units of a string, in order. */
  function Utf16Encode(s: string): (u: seq<int>)
    ensures |u| == Utf16Length(s)
    ensures forall k :: 0 <= k < |u| ==> 0 <= u[k] < 0x1_0000
    decreases |s|
  {
    if |s| == 0 then [] else EncodeChar(s[0]) + Utf16Encode(s[1..])
  }

  /** Reading code units back as characters: a high surrogate followed by a
      low one is a pair, and a lone surrogate reads as U+FFFD. */
  function Utf16Decode(u: seq<int>): string
    requires forall k :: 0 <= k < |u| ==> 0 <= u[k] < 0x1_0000
    decreases |u|
  {
    if |u| == 0 then ""
    else if |u| >= 2 && IsHighSurrogate(u[0]) && IsLowSurrogate(u[1]) then
      [(0x1_0000 + (u[0] - 0xD800) * 0x400 + (u[1] - 0xDC00)) as char] + Utf16Decode(u[2..])
    else if IsHighSurrogate(u[0]) || IsLowSurrogate(u[0]) then
      ['\U{FFFD}'] + Utf16Decode(u[1..])
    else
      [u[0] as char] + Utf16Decode(u[1..])
  }

  /** The code units counted by `Utf16Length` are an encoding: they decode
      back to the string. */
  lemma {:induction false} Utf16RoundTrip(s: string)
    ensures Utf16Decode(Utf16Encode(s)) == s
    decreases |s|
  {
    if |s| > 0 {
      var head := EncodeChar(s[0]);
      var tail := Utf16Encode(s[1..]);
      var u := head + tail;
      assert u[|head|..] == tail;
      Utf16RoundTrip(s[1..]);
      if |head| == 2 {
        var v := s[0] as int;
        assert u[0] == 0xD800 + (v - 0x1_0000) / 0x400 && u[1] == 0xDC00 + (v - 0x1_0000) % 0x400;
        assert 0x1_0000 + (u[0] - 0xD800) * 0x400 + (u[1] - 0xDC00) == v;
      }
    }
  }

  /** A character outside the Basic Multilingual Plane, such as an emoji,
      counts twice. */
  lemma EmojiCountsTwice()
    ensures |"\U{1F600}"| == 1 && Utf16Length("\U{1F600}") == 2
  {
  }

  /** `parts.join(sep)`. */
  function Join(parts: seq<string>, sep: string): (r: string)
    ensures |parts| == 1 ==> r == parts[0]
    ensures |parts| == 0 ==> r == ""
  {
    if |parts| == 0 then ""
    else if |parts| == 1 then parts[0]
    else parts[0] + sep + Join(parts[1..], sep)
  }
}
