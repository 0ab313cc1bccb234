/** URL and XML escaping of the DIAL server. A C string is the sequence of its bytes, none of them 0. */
module UrlLib {
  import opened Common

  type CString = seq<byte>

  ghost predicate NulFree(s: CString) {
    forall i | 0 <= i < |s| :: s[i] != 0
  }

  const PLUS: byte := 0x2B
  const PERCENT: byte := 0x25
  const SPACE: byte := 0x20
  const AMPERSAND: byte := 0x26

  /** What a pointer into `s` points at; behind the last character stands the terminator. */
  function CharAt(s: CString, i: nat): byte
    requires i <= |s|
  {
    if i < |s| then s[i] else 0
  }

  // Copying

  /** `smartstrncpy`: copies at most `maxChars` characters to `dst[at..]` and terminates; `end` is where. */
  method Smartstrncpy(dst: array<byte>, at: nat, src: CString, maxChars: nat) returns (end: nat)
    requires NulFree(src) && at + Min(maxChars, |src|) < dst.Length
    modifies dst
    ensures end == at + Min(maxChars, |src|)
    ensures forall i | 0 <= i < dst.Length ::
      dst[i] == if at <= i < end then src[i - at] else if i == end then 0 else old(dst[i])
  {
    var copied := 0;
    while copied < maxChars
      invariant 0 <= copied <= Min(maxChars, |src|)
      invariant forall i | 0 <= i < dst.Length :: dst[i] == if at <= i < at + copied then src[i - at] else old(dst[i])
    {
      dst[at + copied] := CharAt(src, copied);
      if dst[at + copied] == 0 {
        break;
      }
      copied := copied + 1;
    }
    end := at + copied;
    dst[end] := 0;
  }

  // URL encoding

  /** ASCII letters, digits and `-`, `_`, `.`, `~`. */
  predicate Unreserved(c: byte) {
    || 0x30 <= c <= 0x39 || 0x41 <= c <= 0x5A || 0x61 <= c <= 0x7A
    || c == 0x2D || c == 0x5F || c == 0x2E || c == 0x7E
  }

  function ToHex(v: nat): (c: byte)
    requires v < 16
    ensures Unreserved(c)
  {
    if v < 10 then 0x30 + v else 0x61 + v - 10
  }

  function FromHex(c: byte): Option<nat> {
    if 0x61 <= c <= 0x66 then Some(10 + c - 0x61)
    else if 0x41 <= c <= 0x46 then Some(10 + c - 0x41)
    else if 0x30 <= c <= 0x39 then Some(c - 0x30)
    else None
  }

  lemma HexRoundTrip(v: nat)
    requires v < 16
    ensures FromHex(ToHex(v)) == Some(v)
  {
  }

  /** `append_char_from_hex`, without the destination. */
  function CharFromHex(a: byte, b: byte): Option<byte> {
    match FromHex(a)
    case None => None
    case Some(x) =>
      match FromHex(b)
      case None => None
      case Some(y) => Some(U8(16 * x + y))
  }

  function EncodeChar(c: byte): (e: CString)
    ensures 1 <= |e| <= 3
  {
    if Unreserved(c) then [c] else if c == SPACE then [PLUS] else [PERCENT, ToHex(c as int / 16), ToHex(c as int % 16)]
  }

  function UrlEncode(s: CString): (e: CString)
    ensures |e| <= 3 * |s|
  {
    if s == [] then [] else UrlEncode(s[..|s| - 1]) + EncodeChar(s[|s| - 1])
  }

  /** The decoded bytes so far, and whether decoding went on to the end. */
  datatype Decoded = Decoded(bytes: seq<byte>, ok: bool)

  function UrlDecode(s: CString, max: nat): (d: Decoded)
    ensures |d.bytes| <= max
    decreases |s|
  {
    if max == 0 || s == [] then Decoded([], true)
    else if s[0] == PERCENT then
      if |s| < 3 || CharFromHex(s[1], s[2]).None? then Decoded([], false)
      else Then(CharFromHex(s[1], s[2]).value, UrlDecode(s[3..], max - 1))
    else Then(if s[0] == PLUS then SPACE else s[0], UrlDecode(s[1..], max - 1))
  }

  function Then(c: byte, d: Decoded): Decoded {
    Decoded([c] + d.bytes, d.ok)
  }

  /** `d` after the bytes `done`. */
  function After(done: seq<byte>, d: Decoded): Decoded {
    Decoded(done + d.bytes, d.ok)
  }

  lemma AfterThen(done: seq<byte>, c: byte, d: Decoded)
    ensures After(done, Then(c, d)) == After(done + [c], d)
  {
    Regroup(done, [c], d.bytes);
  }

  /** One character of `src`, which ends an encoded one `width` characters on, or stops the decoder. */
  datatype Read = Char(c: byte, width: nat) | Malformed

  function ReadChar(src: CString, at: nat): (r: Read)
    requires at < |src|
    ensures r.Char? ==> 1 <= r.width && at + r.width <= |src|
  {
    if src[at] == PLUS then Char(SPACE, 1)
    else if src[at] == PERCENT then
      if at + 2 < |src| then
        match CharFromHex(src[at + 1], src[at + 2])
        case None => Malformed
        case Some(c) => Char(c, 3)
      else Malformed
    else Char(src[at], 1)
  }

  lemma DecodeOne(src: CString, at: nat, max: nat)
    requires at < |src| && max > 0
    ensures
      var r := ReadChar(src, at);
      UrlDecode(src[at..], max)
      == if r.Malformed? then Decoded([], false) else Then(r.c, UrlDecode(src[at + r.width..], max - 1))
  {
    hide CharFromHex;
    var rest := src[at..];
    assert rest[1..] == src[at + 1..];
    if at + 2 < |src| {
      assert rest[3..] == src[at + 3..];
    }
  }

  method UrlDecodeTo(dst: array<byte>, src: CString, maxSize: nat) returns (r: nat)
    requires NulFree(src) && maxSize < dst.Length
    modifies dst
    ensures
      var d := UrlDecode(src, maxSize);
      && r == (if d.ok then |d.bytes| else 0)
      && (forall i | 0 <= i < dst.Length ::
            dst[i] == if i < |d.bytes| then d.bytes[i] else if i == |d.bytes| then 0 else old(dst[i]))
  {
    var len, at := 0, 0;
    ghost var done: seq<byte> := [];
    assert src[0..] == src;
    assert After([], UrlDecode(src, maxSize)) == UrlDecode(src, maxSize);
    while len < maxSize && CharAt(src, at) != 0
      invariant |done| == len <= maxSize && at <= |src|
      invariant forall i | 0 <= i < dst.Length :: dst[i] == if i < len then done[i] else old(dst[i])
      invariant UrlDecode(src, maxSize) == After(done, UrlDecode(src[at..], maxSize - len))
      decreases |src| - at
    {
      hide UrlDecode, CharFromHex;
      DecodeOne(src, at, maxSize - len);
      if src[at] == PLUS {
        dst[len] := SPACE;
        at := at + 1;
      } else if src[at] == PERCENT {
        var c := None;
        if at + 2 < |src| {
          c := CharFromHex(src[at + 1], src[at + 2]);
        }
        if c.None? {
          dst[len] := 0;
          return 0;
        }
        dst[len] := c.value;
        at := at + 3;
      } else {
        dst[len] := src[at];
        at := at + 1;
      }
      AfterThen(done, dst[len], UrlDecode(src[at..], maxSize - (len + 1)));
      done := done + [dst[len]];
      len := len + 1;
    }
    assert UrlDecode(src[at..], maxSize - len) == Decoded([], true);
    dst[len] := 0;
    r := len;
  }

  lemma EncodeOne(s: CString, i: nat)
    requires i < |s|
    ensures UrlEncode(s[..i + 1]) == UrlEncode(s[..i]) + EncodeChar(s[i])
  {
    assert s[..i + 1][..i] == s[..i];
  }

  method UrlEncodeTo(str: CString) returns (buf: array<byte>)
    requires NulFree(str)
    ensures fresh(buf) && buf.Length == 3 * |str| + 1
    ensures
      var e := UrlEncode(str);
      buf[..|e|] == e && buf[|e|] == 0
  {
    hide UrlEncode, ToHex, Unreserved;
    buf := new byte[3 * |str| + 1];
    var i, p := 0, 0;
    ghost var done: CString := UrlEncode(str[..0]);
    while i < |str|
      invariant 0 <= i <= |str| && p == |done| <= 3 * i
      invariant done == UrlEncode(str[..i])
      invariant forall k | 0 <= k < p :: buf[k] == done[k]
    {
      var c := str[i];
      EncodeOne(str, i);
      if Unreserved(c) {
        buf[p] := c;
        p := p + 1;
      } else if c == SPACE {
        buf[p] := PLUS;
        p := p + 1;
      } else {
        buf[p], buf[p + 1], buf[p + 2] := PERCENT, ToHex(c as int / 16), ToHex(c as int % 16);
        p := p + 3;
      }
      done := done + EncodeChar(c);
      i := i + 1;
    }
    buf[p] := 0;
    assert str[..|str|] == str;
  }

  lemma {:induction false} EncodeFront(c: byte, s: CString)
    ensures UrlEncode([c] + s) == EncodeChar(c) + UrlEncode(s)
  {
    var t := [c] + s;
    if s == [] {
      assert t[..0] == [] && UrlEncode([]) == [];
      assert UrlEncode(t) == [] + EncodeChar(c);
    } else {
      assert t[..|t| - 1] == [c] + s[..|s| - 1];
      EncodeFront(c, s[..|s| - 1]);
      Regroup(EncodeChar(c), UrlEncode(s[..|s| - 1]), EncodeChar(s[|s| - 1]));
    }
  }

  lemma EncodedCharIsDecoded(c: byte, rest: CString, max: nat)
    requires max > 0
    ensures UrlDecode(EncodeChar(c) + rest, max) == Then(c, UrlDecode(rest, max - 1))
  {
    var e := EncodeChar(c);
    var s := e + rest;
    assert s[|e|..] == rest;
    HexRoundTrip(c as int / 16);
    HexRoundTrip(c as int % 16);
    if Unreserved(c) || c == SPACE {
      assert s[1..] == rest;
    } else {
      assert s[3..] == rest;
      assert CharFromHex(s[1], s[2]) == Some(c);
    }
  }

  lemma TakeFront(c: byte, t: CString, n: nat)
    requires 0 < n <= |t| + 1
    ensures ([c] + t)[..n] == [c] + t[..n - 1]
  {
  }

  /** Decoding what was encoded gives the string back, cut at the size allowed. */
  lemma {:induction false} UrlRoundTrip(s: CString, max: nat)
    ensures UrlDecode(UrlEncode(s), max) == Decoded(s[..Min(max, |s|)], true)
    decreases |s|
  {
    if s == [] || max == 0 {
      assert s[..Min(max, |s|)] == [];
    } else {
      var c, t := s[0], s[1..];
      assert s == [c] + t;
      EncodeFront(c, t);
      EncodedCharIsDecoded(c, UrlEncode(t), max);
      UrlRoundTrip(t, max - 1);
      TakeFront(c, t, Min(max, |s|));
      hide UrlDecode, UrlEncode, EncodeChar;
    }
  }

  lemma UrlEncodeIsInjective(s: CString, t: CString)
    requires UrlEncode(s) == UrlEncode(t)
    ensures s == t
  {
    hide UrlEncode, UrlDecode;
    UrlRoundTrip(s, |s| + |t|);
    UrlRoundTrip(t, |s| + |t|);
    assert s[..|s|] == s && t[..|t|] == t;
  }

  /** Only characters that may stand in a URL come out of the encoder. */
  lemma {:induction false} EncodedIsUrlSafe(s: CString)
    ensures forall i | 0 <= i < |UrlEncode(s)| ::
      Unreserved(UrlEncode(s)[i]) || UrlEncode(s)[i] == PLUS || UrlEncode(s)[i] == PERCENT
  {
    if s != [] {
      EncodedIsUrlSafe(s[..|s| - 1]);
    }
  }

  // What single characters become

  /** The lower-case hexadecimal digits. */
  const DIGITS := "0123456789abcdef"

  lemma DigitsByValue(v: nat)
    requires v < 16
    ensures |DIGITS| == 16 && ToHex(v) == DIGITS[v] as int
  {
  }

  lemma OneMoreEncoded(s: CString, c: byte)
    ensures UrlEncode(s + [c]) == UrlEncode(s) + EncodeChar(c)
  {
    assert (s + [c])[..|s|] == s;
  }

  lemma {:induction false} EncodingSplits(s: CString, t: CString)
    ensures UrlEncode(s + t) == UrlEncode(s) + UrlEncode(t)
    decreases |t|
  {
    hide EncodeChar, UrlEncode;
    if t == [] {
      assert s + t == s;
      NothingEncoded();
    } else {
      var front, c := t[..|t| - 1], t[|t| - 1];
      assert s + t == (s + front) + [c] && t == front + [c];
      OneMoreEncoded(s + front, c);
      OneMoreEncoded(front, c);
      EncodingSplits(s, front);
      Regroup(UrlEncode(s), UrlEncode(front), EncodeChar(c));
    }
  }

  lemma NothingEncoded()
    ensures UrlEncode([]) == []
  {
  }

  /**
   * What becomes of each character: letters, digits and `-`, `_`, `.`, `~` stay, a space is a plus sign, and any other
   * one is a percent sign and the two hexadecimal digits of its code, the higher first.
   */
  lemma CharactersByPosition(s: CString, i: nat)
    requires i < |s|
    ensures
      var (c, e) := (s[i], UrlEncode(s));
      var at := |UrlEncode(s[..i])|;
      && at < |e| && |DIGITS| == 16
      && if 'a' <= c as char <= 'z' || 'A' <= c as char <= 'Z' || '0' <= c as char <= '9' || c as char in "-_.~"
         then e[at] == c
         else if c == 0x20 then e[at] as char == '+'
         else
           && at + 2 < |e| && e[at] as char == '%'
           && e[at + 1] == DIGITS[c as int / 16] as int && e[at + 2] == DIGITS[c as int % 16] as int
  {
    hide UrlEncode;
    var c := s[i];
    EncodingSplits(s[..i], s[i..]);
    EncodingSplits([c], s[i + 1..]);
    assert s == s[..i] + s[i..] && s[i..] == [c] + s[i + 1..];
    OneEncoded(c);
    DigitsByValue(c as int / 16);
    DigitsByValue(c as int % 16);
    hide ToHex;
  }

  lemma OneEncoded(c: byte)
    ensures UrlEncode([c]) == EncodeChar(c)
  {
    assert [c][..0] == [] && UrlEncode([]) == [];
  }

  /** The value of a hexadecimal digit in either case, 16 for any other character. */
  function DigitValue(c: byte): nat {
    if 0x30 <= c <= 0x39 then c as int - 0x30
    else if 0x41 <= c <= 0x46 then c as int - 0x41 + 10
    else if 0x61 <= c <= 0x66 then c as int - 0x61 + 10
    else 16
  }

  /** An encoded character begins with a percent sign; two hexadecimal digits, the higher first, must follow. */
  lemma DecodedByPosition(s: CString, max: nat)
    requires s != [] && max > 0
    ensures
      var d := UrlDecode(s, max);
      if s[0] as char != '%' then
        d.bytes != [] && d.bytes[0] == (if s[0] as char == '+' then 0x20 else s[0])
        && Decoded(d.bytes[1..], d.ok) == UrlDecode(s[1..], max - 1)
      else if |s| < 3 || DigitValue(s[1]) == 16 || DigitValue(s[2]) == 16 then d == Decoded([], false)
      else
        d.bytes != [] && d.bytes[0] == 16 * DigitValue(s[1]) + DigitValue(s[2])
        && Decoded(d.bytes[1..], d.ok) == UrlDecode(s[3..], max - 1)
  {
    hide CharFromHex, DigitValue;
    if |s| >= 3 {
      TwoDigits(s[1], s[2]);
    }
    var rest := if s[0] != PERCENT then UrlDecode(s[1..], max - 1)
                else if |s| < 3 then Decoded([], true) else UrlDecode(s[3..], max - 1);
    ThenIsFirst(if s[0] == PLUS then SPACE else s[0], rest);
    if s[0] == PERCENT && |s| >= 3 && CharFromHex(s[1], s[2]).Some? {
      ThenIsFirst(CharFromHex(s[1], s[2]).value, rest);
    }
  }

  lemma TwoDigits(a: byte, b: byte)
    ensures CharFromHex(a, b)
            == if DigitValue(a) == 16 || DigitValue(b) == 16 then None else Some(16 * DigitValue(a) + DigitValue(b))
  {
  }

  lemma ThenIsFirst(c: byte, d: Decoded)
    ensures var r := Then(c, d); r.bytes != [] && r.bytes[0] == c && Decoded(r.bytes[1..], r.ok) == d
  {
  }
}
