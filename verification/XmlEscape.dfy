/** XML escaping of the DIAL server into a buffer of limited size. */
module XmlEscape {
  import opened Common
  import opened UrlLib

  const QUOTE: byte := 0x22
  const APOSTROPHE: byte := 0x27
  const LESS: byte := 0x3C
  const GREATER: byte := 0x3E

  predicate Special(c: byte) {
    c == AMPERSAND || c == QUOTE || c == APOSTROPHE || c == LESS || c == GREATER
  }

  /** `&amp;`, `&quot;`, `&apos;`, `&lt;` and `&gt;`. */
  function Reference(c: byte): (r: CString)
    requires Special(c)
    ensures 4 <= |r| <= 6
  {
    if c == AMPERSAND then [0x26, 0x61, 0x6D, 0x70, 0x3B]
    else if c == QUOTE then [0x26, 0x71, 0x75, 0x6F, 0x74, 0x3B]
    else if c == APOSTROPHE then [0x26, 0x61, 0x70, 0x6F, 0x73, 0x3B]
    else if c == LESS then [0x26, 0x6C, 0x74, 0x3B]
    else [0x26, 0x67, 0x74, 0x3B]
  }

  function EscapeChar(c: byte): (e: CString)
    ensures 1 <= |e| <= 6
  {
    if Special(c) then Reference(c) else [c]
  }

  /** Escaping without a limit. */
  function Escape(s: CString): (e: CString)
    ensures |s| <= |e| <= 6 * |s|
  {
    if s == [] then [] else EscapeChar(s[0]) + Escape(s[1..])
  }

  /** Whether `c` still goes into a buffer of `max` characters, `used` of them used: a reference must leave one free. */
  predicate Fits(c: byte, used: nat, max: nat) {
    if Special(c) then used + |Reference(c)| < max else used < max
  }

  /** The characters that `xmlencode` does not drop. */
  function Kept(s: CString, used: nat, max: nat): (t: CString)
    requires used <= max
    ensures |t| <= |s|
    decreases |s|
  {
    if s == [] || used == max then []
    else if Fits(s[0], used, max) then [s[0]] + Kept(s[1..], used + |EscapeChar(s[0])|, max)
    else Kept(s[1..], used, max)
  }

  /** Never more than `max` characters. */
  lemma {:induction false} KeptFits(s: CString, used: nat, max: nat)
    requires used <= max
    ensures used + |Escape(Kept(s, used, max))| <= max
    decreases |s|
  {
    if s != [] && used < max {
      if Fits(s[0], used, max) {
        KeptFits(s[1..], used + |EscapeChar(s[0])|, max);
        EscapeFront(s[0], Kept(s[1..], used + |EscapeChar(s[0])|, max));
      } else {
        KeptFits(s[1..], used, max);
      }
    }
  }

  lemma EscapeFront(c: byte, s: CString)
    ensures Escape([c] + s) == EscapeChar(c) + Escape(s)
  {
    assert ([c] + s)[1..] == s;
  }

  lemma {:induction false} EscapeBack(s: CString, c: byte)
    ensures Escape(s + [c]) == Escape(s) + EscapeChar(c)
    decreases |s|
  {
    if s == [] {
      assert [] + [c] == [c] + [];
      EscapeFront(c, []);
    } else {
      assert (s + [c])[1..] == s[1..] + [c];
      EscapeBack(s[1..], c);
      Regroup(EscapeChar(s[0]), Escape(s[1..]), EscapeChar(c));
    }
  }

  /** The whole string goes into `max` characters: with room to spare, or just so when the last character is plain. */
  predicate AllFits(s: CString, used: nat, max: nat) {
    s == [] || used + |Escape(s)| < max || (used + |Escape(s)| == max && !Special(s[|s| - 1]))
  }

  lemma {:induction false} NothingDroppedExactlyWhen(s: CString, used: nat, max: nat)
    requires used <= max
    ensures |Kept(s, used, max)| == |s| <==> AllFits(s, used, max)
    ensures |Kept(s, used, max)| == |s| ==> Kept(s, used, max) == s
    decreases |s|
  {
    hide Reference, Special;
    if s != [] {
      var n := used + |EscapeChar(s[0])|;
      assert Escape(s) == EscapeChar(s[0]) + Escape(s[1..]);
      if used < max && Fits(s[0], used, max) {
        NothingDroppedExactlyWhen(s[1..], n, max);
        assert s == [s[0]] + s[1..];
        assert s[1..] != [] ==> s[1..][|s[1..]| - 1] == s[|s| - 1];
      } else {
        assert |Kept(s, used, max)| < |s|;
      }
    }
  }

  /** The character whose reference stands at the beginning of `s`. */
  function LeadingReference(s: CString): (r: Option<byte>)
    ensures r.Some? ==> Special(r.value) && Reference(r.value) <= s
  {
    if Reference(AMPERSAND) <= s then Some(AMPERSAND)
    else if Reference(QUOTE) <= s then Some(QUOTE)
    else if Reference(APOSTROPHE) <= s then Some(APOSTROPHE)
    else if Reference(LESS) <= s then Some(LESS)
    else if Reference(GREATER) <= s then Some(GREATER)
    else None
  }

  /** What an XML processor makes of the five references; `&` without one of them stays. */
  function Unescape(s: CString): CString
    decreases |s|
  {
    if s == [] then []
    else
      match LeadingReference(s)
      case Some(c) => [c] + Unescape(s[|Reference(c)|..])
      case None => [s[0]] + Unescape(s[1..])
  }

  lemma EscapedCharIsRead(c: byte, rest: CString)
    ensures Unescape(EscapeChar(c) + rest) == [c] + Unescape(rest)
  {
    hide Reference;
    var s := EscapeChar(c) + rest;
    assert s[|EscapeChar(c)|..] == rest;
    if Special(c) {
      StartsWith(Reference(c), rest);
      OneReference(c, s);
    } else {
      NoReference(c, s);
    }
  }

  lemma StartsWith(a: CString, b: CString)
    ensures a <= a + b
  {
  }

  /** The references differ within their first three characters. */
  lemma OneReference(c: byte, s: CString)
    requires Special(c) && Reference(c) <= s
    ensures LeadingReference(s) == Some(c)
  {
    forall d: byte | Special(d) && Reference(d) <= s ensures d == c {
      assert s[1] == Reference(d)[1] == Reference(c)[1] && s[2] == Reference(d)[2] == Reference(c)[2];
    }
  }

  lemma NoReference(c: byte, s: CString)
    requires !Special(c) && s != [] && s[0] == c
    ensures LeadingReference(s) == None
  {
    assert forall d: byte | Special(d) :: Reference(d)[0] == AMPERSAND;
  }

  lemma {:induction false} XmlRoundTrip(s: CString)
    ensures Unescape(Escape(s)) == s
    decreases |s|
  {
    if s != [] {
      EscapedCharIsRead(s[0], Escape(s[1..]));
      XmlRoundTrip(s[1..]);
    }
  }

  /**
   * Unescaping what `xmlencode` leaves in the buffer gives the input back, exactly when the escaped input fits:
   * below `max` characters, or in exactly `max` when its last character is not escaped.
   */
  lemma XmlEncodeIsLosslessExactlyWhen(s: CString, max: nat)
    ensures Unescape(Escape(Kept(s, 0, max))) == s <==> AllFits(s, 0, max)
  {
    XmlRoundTrip(Kept(s, 0, max));
    NothingDroppedExactlyWhen(s, 0, max);
  }

  /** In particular with a size above six times the length of the input. */
  lemma SixTimesIsEnough(s: CString, max: nat)
    requires 6 * |s| < max
    ensures Kept(s, 0, max) == s
  {
    NothingDroppedExactlyWhen(s, 0, max);
  }

  /** No markup character survives on its own. */
  lemma {:induction false} NoMarkupLeft(s: CString)
    ensures forall i | 0 <= i < |Escape(s)| ::
      var c := Escape(s)[i];
      c != QUOTE && c != APOSTROPHE && c != LESS && c != GREATER
    decreases |s|
  {
    if s != [] {
      NoMarkupLeft(s[1..]);
    }
  }

  /** One character of the input: kept, behind those kept already, or dropped. */
  lemma KeepOne(src: CString, at: nat, used: nat, max: nat, done: CString)
    requires at < |src| && used < max && used == |Escape(done)|
    ensures
      var c := src[at];
      if Fits(c, used, max) then
        && used + |EscapeChar(c)| == |Escape(done + [c])| <= max
        && Escape(done + [c]) == Escape(done) + EscapeChar(c)
        && done + Kept(src[at..], used, max) == done + [c] + Kept(src[at + 1..], used + |EscapeChar(c)|, max)
      else
        Kept(src[at..], used, max) == Kept(src[at + 1..], used, max)
  {
    var c, rest := src[at], src[at..];
    assert rest[0] == c && rest[1..] == src[at + 1..];
    EscapeBack(done, c);
    if Fits(c, used, max) {
      Regroup(done, [c], Kept(rest[1..], used + |EscapeChar(c)|, max));
    }
  }

  lemma NothingYet()
    ensures Escape([]) == []
  {
  }

  lemma NoMore(rest: CString, used: nat, max: nat)
    requires used <= max && (rest == [] || used == max)
    ensures Kept(rest, used, max) == []
  {
  }

  method XmlEncodeTo(dst: array<byte>, src: CString, maxSize: nat)
    requires NulFree(src) && maxSize < dst.Length
    modifies dst
    ensures
      var e := Escape(Kept(src, 0, maxSize));
      && |e| <= maxSize
      && dst[..|e|] == e && dst[|e|] == 0
      && dst[maxSize + 1..] == old(dst[maxSize + 1..])
  {
    hide Escape, Kept, Reference;
    var p, at := 0, 0;
    ghost var done: CString := [];
    NothingYet();
    assert src[0..] == src && [] + Kept(src, 0, maxSize) == Kept(src, 0, maxSize);
    while CharAt(src, at) != 0 && p < maxSize
      invariant at <= |src| && p == |Escape(done)| <= maxSize
      invariant forall i | 0 <= i < p :: dst[i] == Escape(done)[i]
      invariant Kept(src, 0, maxSize) == done + Kept(src[at..], p, maxSize)
      invariant forall i | maxSize < i < dst.Length :: dst[i] == old(dst[i])
      decreases |src| - at
    {
      var c := src[at];
      KeepOne(src, at, p, maxSize, done);
      if Fits(c, p, maxSize) {
        if Special(c) {
          SpecialIsText(c);
          p := Smartstrncpy(dst, p, Reference(c), maxSize - p);
        } else {
          dst[p] := c;
          p := p + 1;
        }
        done := done + [c];
      }
      at := at + 1;
    }
    NoMore(src[at..], p, maxSize);
    assert Kept(src, 0, maxSize) == done;
    dst[p] := 0;
  }

  lemma SpecialIsText(c: byte)
    requires Special(c)
    ensures NulFree(Reference(c))
  {
  }

  /** The five references of section 4.6 of XML 1.0, for the characters they stand for. */
  lemma ReferencesAreXmls(c: byte)
    ensures Special(c) <==> c as char in "&\"'<>"
    ensures Special(c) ==>
              Text(Reference(c)) == match c as char
                                    case '&' => "&amp;"
                                    case '"' => "&quot;"
                                    case '\'' => "&apos;"
                                    case '<' => "&lt;"
                                    case _ => "&gt;"
  {
    if Special(c) {
      assert Text(Reference(c))[0] == '&';
    }
  }
}
