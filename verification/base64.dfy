/**
 * The browser's `btoa` and `atob`: base64 with the alphabet of section 4 of
 * RFC 4648, where `btoa` reads each character of its argument as one byte
 * and `atob` follows the "forgiving-base64 decode" algorithm of the WHATWG
 * Infra standard (ASCII whitespace ignored, padding optional, bits left
 * over in the last group discarded).
 */
module Base64 {
  import opened Wrappers

  /** The exception both functions throw (a DOMException in the browser). */
  datatype Base64Error = InvalidCharacter

  /** Every character fits in one byte, which is what `btoa` demands. */
  predicate IsLatin1(s: string) {
    forall i :: 0 <= i < |s| ==> s[i] as int < 256
  }

  predicate IsByte(b: int) { 0 <= b < 256 }

  predicate IsSextet(v: int) { 0 <= v < 64 }

  predicate AllBytes(b: seq<int>) { forall i :: 0 <= i < |b| ==> IsByte(b[i]) }

  predicate AllSextets(q: seq<int>) { forall i :: 0 <= i < |q| ==> IsSextet(q[i]) }

  /** The character that spells a 6-bit value (Table 1 of RFC 4648). */
  function SextetChar(v: int): (c: char)
    requires IsSextet(v)
    ensures IsAlphabet(c) && SextetValue(c) == v
  {
    if v < 26 then ('A' as int + v) as char
    else if v < 52 then ('a' as int + (v - 26)) as char
    else if v < 62 then ('0' as int + (v - 52)) as char
    else if v == 62 then '+'
    else '/'
  }

  predicate IsAlphabet(c: char) {
    ('A' <= c <= 'Z') || ('a' <= c <= 'z') || ('0' <= c <= '9') || c == '+' || c == '/'
  }

  /** The 6-bit value a character of the alphabet stands for. */
  function SextetValue(c: char): (v: int)
    requires IsAlphabet(c)
    ensures IsSextet(v)
  {
    if 'A' <= c <= 'Z' then c as int - 'A' as int
    else if 'a' <= c <= 'z' then c as int - 'a' as int + 26
    else if '0' <= c <= '9' then c as int - '0' as int + 52
    else if c == '+' then 62
    else 63
  }

  /** ASCII whitespace as the Infra standard defines it: TAB, LF, FF, CR, SPACE. */
  predicate IsAsciiWhitespace(c: char) {
    c == '\t' || c == '\n' || c == '\U{000C}' || c == '\r' || c == ' '
  }

  function Codes(s: string): (b: seq<int>)
    ensures |b| == |s|
    ensures forall i :: 0 <= i < |s| ==> b[i] == s[i] as int
  {
    seq(|s|, i requires 0 <= i < |s| => s[i] as int)
  }

  function Chars(b: seq<int>): (s: string)
    requires AllBytes(b)
    ensures |s| == |b|
    ensures forall i :: 0 <= i < |b| ==> s[i] as int == b[i]
  {
    seq(|b|, i requires 0 <= i < |b| => b[i] as char)
  }

  function Spell(q: seq<int>): (s: string)
    requires AllSextets(q)
    ensures |s| == |q|
    ensures forall i :: 0 <= i < |q| ==> s[i] == SextetChar(q[i])
  {
    seq(|q|, i requires 0 <= i < |q| => SextetChar(q[i]))
  }

  function Values(s: string): (q: seq<int>)
    requires forall i :: 0 <= i < |s| ==> IsAlphabet(s[i])
    ensures |q| == |s| && AllSextets(q)
    ensures forall i :: 0 <= i < |s| ==> q[i] == SextetValue(s[i])
  {
    seq(|s|, i requires 0 <= i < |s| => SextetValue(s[i]))
  }

  /** Number of sextets that `n` bytes spell before padding. */
  function SextetCount(n: nat): nat {
    (n / 3) * 4 + (if n % 3 == 0 then 0 else n % 3 + 1)
  }

  /** Three bytes as four sextets. */
  function EncodeGroup(b0: int, b1: int, b2: int): (q: seq<int>)
    requires IsByte(b0) && IsByte(b1) && IsByte(b2)
    ensures |q| == 4 && AllSextets(q)
  {
    [b0 / 4, (b0 % 4) * 16 + b1 / 16, (b1 % 16) * 4 + b2 / 64, b2 % 64]
  }

  /** A final group of one or two bytes, as two or three zero-filled sextets. */
  function EncodeTail(b: seq<int>): (q: seq<int>)
    requires AllBytes(b) && 1 <= |b| <= 2
    ensures |q| == |b| + 1 && AllSextets(q)
  {
    if |b| == 1 then [b[0] / 4, (b[0] % 4) * 16]
    else [b[0] / 4, (b[0] % 4) * 16 + b[1] / 16, (b[1] % 16) * 4]
  }

  /** Four sextets as three bytes. */
  function DecodeGroup(q0: int, q1: int, q2: int, q3: int): (b: seq<int>)
    requires IsSextet(q0) && IsSextet(q1) && IsSextet(q2) && IsSextet(q3)
    ensures |b| == 3 && AllBytes(b)
  {
    [q0 * 4 + q1 / 16, (q1 % 16) * 16 + q2 / 4, (q2 % 4) * 64 + q3]
  }

  /** A final group of two or three sextets; its leftover low bits are dropped. */
  function DecodeTail(q: seq<int>): (b: seq<int>)
    requires AllSextets(q) && 2 <= |q| <= 3
    ensures |b| == |q| - 1 && AllBytes(b)
  {
    if |q| == 2 then [q[0] * 4 + q[1] / 16]
    else [q[0] * 4 + q[1] / 16, (q[1] % 16) * 16 + q[2] / 4]
  }

  /** Splits bytes into 6-bit groups, three bytes to four sextets. */
  function EncodeBytes(b: seq<int>): (q: seq<int>)
    requires AllBytes(b)
    ensures AllSextets(q)
    ensures |q| == SextetCount(|b|)
    decreases |b|
  {
    if |b| == 0 then []
    else if |b| <= 2 then EncodeTail(b)
    else EncodeGroup(b[0], b[1], b[2]) + EncodeBytes(b[3..])
  }

  /** Joins sextets back into bytes; a final group of one sextet is not allowed. */
  function DecodeSextets(q: seq<int>): (b: seq<int>)
    requires AllSextets(q) && |q| % 4 != 1
    ensures AllBytes(b)
    decreases |q|
  {
    if |q| == 0 then []
    else if |q| <= 3 then DecodeTail(q)
    else DecodeGroup(q[0], q[1], q[2], q[3]) + DecodeSextets(q[4..])
  }

  /** The `=` characters that complete the last group of four. */
  function Padding(n: nat): string {
    if n % 3 == 1 then "==" else if n % 3 == 2 then "=" else ""
  }

  /** `btoa(s)`: throws when a character does not fit in one byte. */
  function Btoa(s: string): (r: Result<string, Base64Error>)
    ensures r.Success? <==> IsLatin1(s)
    ensures r.Success? ==> |r.value| % 4 == 0
    ensures r.Success? ==> forall i :: 0 <= i < |r.value| ==> IsAlphabet(r.value[i]) || r.value[i] == '='
  {
    if IsLatin1(s) then
      Success(Spell(EncodeBytes(Codes(s))) + Padding(|s|))
    else
      Failure(InvalidCharacter)
  }

  function RemoveWhitespace(s: string): (r: string)
    ensures forall i :: 0 <= i < |r| ==> !IsAsciiWhitespace(r[i])
    ensures (forall i :: 0 <= i < |s| ==> !IsAsciiWhitespace(s[i])) ==> r == s
    ensures forall c :: c in s && !IsAsciiWhitespace(c) ==> c in r
    decreases |s|
  {
    if |s| == 0 then ""
    else if IsAsciiWhitespace(s[0]) then RemoveWhitespace(s[1..])
    else [s[0]] + RemoveWhitespace(s[1..])
  }

  /** Drops one or two trailing `=`; only applied to a length divisible by four. */
  function StripPadding(s: string): string {
    if |s| >= 2 && s[|s| - 2] == '=' && s[|s| - 1] == '=' then s[..|s| - 2]
    else if |s| >= 1 && s[|s| - 1] == '=' then s[..|s| - 1]
    else s
  }

  /** `atob(t)`: throws on a stray character or a dangling single sextet. */
  function Atob(t: string): (r: Result<string, Base64Error>)
    ensures r.Success? ==> IsLatin1(r.value)
    ensures (exists i :: 0 <= i < |t| && !IsAlphabet(t[i]) && !IsAsciiWhitespace(t[i]) && t[i] != '=') ==> r.Failure?
  {
    var u := RemoveWhitespace(t);
    var v := if |u| % 4 == 0 then StripPadding(u) else u;
    if |v| % 4 == 1 || !(forall i :: 0 <= i < |v| ==> IsAlphabet(v[i])) then
      Failure(InvalidCharacter)
    else
      Success(Chars(DecodeSextets(Values(v))))
  }

  /** One full group: the sextets of three bytes give the bytes back. */
  lemma GroupRoundTrip(b0: int, b1: int, b2: int)
    requires IsByte(b0) && IsByte(b1) && IsByte(b2)
    ensures var q := EncodeGroup(b0, b1, b2); DecodeGroup(q[0], q[1], q[2], q[3]) == [b0, b1, b2]
  {
  }

  /** A final group of one or two bytes survives the zero-filled sextets. */
  lemma TailRoundTrip(b: seq<int>)
    requires AllBytes(b) && 1 <= |b| <= 2
    ensures DecodeTail(EncodeTail(b)) == b
  {
  }

  /** Decoding the sextets of any byte string gives the byte string back. */
  lemma {:induction false} BytesRoundTrip(b: seq<int>)
    requires AllBytes(b)
    ensures |EncodeBytes(b)| % 4 != 1
    ensures DecodeSextets(EncodeBytes(b)) == b
    decreases |b|
  {
    if 1 <= |b| <= 2 {
      TailRoundTrip(b);
    } else if |b| >= 3 {
      GroupRoundTrip(b[0], b[1], b[2]);
      BytesRoundTrip(b[3..]);
      var g := EncodeGroup(b[0], b[1], b[2]);
      var q := EncodeBytes(b);
      assert q == g + EncodeBytes(b[3..]);
      assert q[4..] == EncodeBytes(b[3..]);
      assert q[..4] == g;
      assert b == [b[0], b[1], b[2]] + b[3..];
    }
  }

  /** Reading back the characters of spelled sextets gives the sextets. */
  lemma ValuesOfSpell(q: seq<int>)
    requires AllSextets(q)
    ensures Values(Spell(q)) == q
  {
  }

  lemma CharsOfCodes(s: string)
    requires IsLatin1(s)
    ensures Chars(Codes(s)) == s
  {
  }

  /** The padding `btoa` appends is exactly what `atob` strips. */
  lemma StripPaddingOfBtoa(body: string, n: nat)
    requires forall i :: 0 <= i < |body| ==> IsAlphabet(body[i])
    ensures StripPadding(body + Padding(n)) == body
  {
    var t := body + Padding(n);
    if n % 3 == 0 {
      assert t == body;
      if |body| > 0 {
        assert IsAlphabet(body[|body| - 1]);
      }
    } else if n % 3 == 1 {
      assert t[..|t| - 2] == body;
    } else {
      if |body| > 0 {
        assert IsAlphabet(body[|body| - 1]);
      }
      assert t[..|t| - 1] == body;
    }
  }

  /** `atob(btoa(s)) == s` for every string `btoa` accepts. */
  lemma AtobBtoa(s: string)
    requires IsLatin1(s)
    ensures Btoa(s).Success? && Atob(Btoa(s).value) == Success(s)
  {
    var q := EncodeBytes(Codes(s));
    var body := Spell(q);
    var t := body + Padding(|s|);
    assert Btoa(s).value == t;
    BytesRoundTrip(Codes(s));
    assert forall i :: 0 <= i < |t| ==> !IsAsciiWhitespace(t[i]);
    assert RemoveWhitespace(t) == t;
    StripPaddingOfBtoa(body, |s|);
    ValuesOfSpell(q);
    CharsOfCodes(s);
  }
}
