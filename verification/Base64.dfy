/** The base64 encoder; section 4 of RFC 4648. */
module Base64 {
  import opened Common

  /** A JavaScript string, as its code units. */
  type CodeUnits = seq<uint16>

  const PAD := 64

  /** The table of the encoder, the padding in its last place. */
  function Symbol(v: nat): (c: char)
    requires v <= PAD
  {
    if v < 26 then ('A' as int + v) as char
    else if v < 52 then ('a' as int + v - 26) as char
    else if v < 62 then ('0' as int + v - 52) as char
    else if v == 62 then '+' else if v == 63 then '/' else '='
  }

  /** What a symbol stands for; the padding stands for nothing. */
  function Sextet(c: char): (v: Option<nat>)
    ensures v.Some? ==> v.value < 64
  {
    if 'A' <= c <= 'Z' then Some(c as int - 'A' as int)
    else if 'a' <= c <= 'z' then Some(c as int - 'a' as int + 26)
    else if '0' <= c <= '9' then Some(c as int - '0' as int + 52)
    else if c == '+' then Some(62) else if c == '/' then Some(63) else None
  }

  lemma SextetOfSymbol(v: nat)
    requires v < 64
    ensures Sextet(Symbol(v)) == Some(v) && Symbol(v) != '='
  {
  }

  lemma SymbolOfSextet(c: char)
    requires Sextet(c).Some?
    ensures Symbol(Sextet(c).value) == c
  {
  }

  /** The masks of the encoder let only the low byte of a code unit through. */
  function Low(c: uint16): byte {
    c % 0x100
  }

  function LowBytes(s: CodeUnits): (bs: seq<byte>)
    ensures |bs| == |s|
    ensures forall i | 0 <= i < |s| :: bs[i] == Low(s[i])
  {
    seq(|s|, i requires 0 <= i < |s| => Low(s[i]))
  }

  // The encoder; the two halves of an output value occupy different bits, so joining them is adding them.

  function First(a: byte): (v: nat)
    ensures v < 64
  {
    a as int / 4
  }

  function Second(a: byte, b: byte): (v: nat)
    ensures v < 64
  {
    a as int % 4 * 16 + b as int / 16
  }

  function Third(b: byte, c: byte): (v: nat)
    ensures v < 64
  {
    b as int % 16 * 4 + c as int / 64
  }

  function Fourth(c: byte): (v: nat)
    ensures v < 64
  {
    c as int % 64
  }

  /** Three bytes put together again from four values. */
  lemma Rejoin(a: byte, b: byte, c: byte)
    ensures First(a) * 4 + Second(a, b) / 16 == a
    ensures Second(a, b) % 16 * 16 + Third(b, c) / 4 == b
    ensures Third(b, c) % 4 * 64 + Fourth(c) == c
    ensures Second(a, 0) % 16 == 0 && Third(b, 0) % 4 == 0
  {
  }

  /** Four values taken apart again. */
  lemma Resplit(p: nat, q: nat, r: nat, t: nat)
    requires p < 64 && q < 64 && r < 64 && t < 64
    ensures
      var a, b, c := p * 4 + q / 16, q % 16 * 16 + r / 4, r % 4 * 64 + t;
      && First(a) == p && Second(a, b) == q && Third(b, c) == r && Fourth(c) == t
      && (q % 16 == 0 ==> Second(a, 0) == q)
      && (r % 4 == 0 ==> Third(b, 0) == r)
  {
  }

  /** Up to three bytes as four symbols. */
  function Quantum(bs: seq<byte>): (q: string)
    requires 1 <= |bs| <= 3
    ensures |q| == 4
  {
    if |bs| == 1 then [Symbol(First(bs[0])), Symbol(Second(bs[0], 0)), '=', '=']
    else if |bs| == 2 then [Symbol(First(bs[0])), Symbol(Second(bs[0], bs[1])), Symbol(Third(bs[1], 0)), '=']
    else [Symbol(First(bs[0])), Symbol(Second(bs[0], bs[1])), Symbol(Third(bs[1], bs[2])), Symbol(Fourth(bs[2]))]
  }

  function Encode(bs: seq<byte>): string {
    if bs == [] then "" else if |bs| <= 3 then Quantum(bs) else Quantum(bs[..3]) + Encode(bs[3..])
  }

  method Base64Encode(str: Option<CodeUnits>) returns (result: string)
    ensures result == Encode(LowBytes(if str.None? then [] else str.value))
  {
    hide Symbol, Encode, Quantum;
    var s := if str.None? then [] else str.value;
    ghost var bs := LowBytes(s);
    result := "";
    var length := |s|;
    var i := 0;
    assert bs[0..] == bs && "" + Encode(bs) == Encode(bs);
    while i < length
      invariant 0 <= i <= length
      invariant Encode(bs) == result + Encode(bs[i..])
    {
      ghost var first, before := i, result;
      var output0 := Low(s[i]) as int / 4;
      var output1 := Low(s[i]) as int % 4 * 16;
      var output2 := PAD;
      var output3 := PAD;
      i := i + 1;
      if i < length {
        output1 := output1 + Low(s[i]) as int / 16;
        output2 := Low(s[i]) as int % 16 * 4;
        i := i + 1;
        if i < length {
          output2 := output2 + Low(s[i]) as int / 64;
          output3 := Low(s[i]) as int % 64;
          i := i + 1;
        }
      }
      QuantumIs(bs[first..i], output0, output1, output2, output3);
      result := result + [Symbol(output0)];
      result := result + [Symbol(output1)];
      result := result + [Symbol(output2)];
      result := result + [Symbol(output3)];
      NextQuantum(bs, first, i);
      assert result == before + Quantum(bs[first..i]);
      Regroup(before, Quantum(bs[first..i]), Encode(bs[i..]));
    }
    NothingEncoded();
    assert bs[i..] == [];
  }

  lemma NothingEncoded()
    ensures Encode([]) == ""
  {
  }

  lemma QuantumIs(bs: seq<byte>, p: nat, q: nat, r: nat, t: nat)
    requires 1 <= |bs| <= 3
    requires p == First(bs[0]) && q == Second(bs[0], if |bs| > 1 then bs[1] else 0)
    requires r == if |bs| > 1 then Third(bs[1], if |bs| > 2 then bs[2] else 0) else PAD
    requires t == if |bs| > 2 then Fourth(bs[2]) else PAD
    ensures Quantum(bs) == [Symbol(p), Symbol(q), Symbol(r), Symbol(t)]
  {
    hide First, Second, Third, Fourth;
  }

  lemma NextQuantum(bs: seq<byte>, i: nat, j: nat)
    requires i < |bs| && j == Min(i + 3, |bs|)
    ensures Encode(bs[i..]) == Quantum(bs[i..j]) + Encode(bs[j..])
  {
    hide Quantum;
    if i + 3 < |bs| {
      assert bs[i..][..3] == bs[i..j] && bs[i..][3..] == bs[j..];
    } else {
      assert bs[i..] == bs[i..j] && bs[j..] == [];
    }
  }

  // Properties

  lemma {:induction false} EncodedLength(bs: seq<byte>)
    ensures |Encode(bs)| == 4 * ((|bs| + 2) / 3)
  {
    hide Quantum;
    if |bs| > 3 {
      EncodedLength(bs[3..]);
    }
  }

  /** How many bytes are missing from the last quantum. */
  function Missing(n: nat): nat {
    if n % 3 == 0 then 0 else 3 - n % 3
  }

  /** Padding stands only at the end, and there is as much of it as bytes are missing from the last quantum. */
  lemma {:induction false} PaddingExactlyAtTheEnd(bs: seq<byte>, i: nat)
    requires i < |Encode(bs)|
    ensures Encode(bs)[i] == '=' <==> i >= |Encode(bs)| - Missing(|bs|)
  {
    hide Quantum;
    if |bs| > 3 {
      assert Missing(|bs[3..]|) == Missing(|bs|) <= 2;
      if i < 4 {
        assert |Encode(bs[3..])| >= 4 by { EncodedLength(bs[3..]); }
        QuantumPadding(bs[..3], i);
      } else {
        PaddingExactlyAtTheEnd(bs[3..], i - 4);
      }
    } else {
      QuantumPadding(bs, i);
    }
  }

  lemma QuantumPadding(bs: seq<byte>, i: nat)
    requires 1 <= |bs| <= 3 && i < 4
    ensures Quantum(bs)[i] == '=' <==> i > |bs|
  {
    hide First, Second, Third, Fourth;
    SextetOfSymbol(First(bs[0]));
    SextetOfSymbol(Second(bs[0], if |bs| > 1 then bs[1] else 0));
    if |bs| > 1 {
      SextetOfSymbol(Third(bs[1], if |bs| > 2 then bs[2] else 0));
    }
    if |bs| > 2 {
      SextetOfSymbol(Fourth(bs[2]));
    }
  }

  /** A decoder that accepts only full quanta, padding at the end and zeros in unused bits. */
  function Decode(t: string): Option<seq<byte>> {
    if t == "" then Some([])
    else if |t| < 4 then None
    else
      match DecodeQuantum(t[..4])
      case None => None
      case Some(q) =>
        if |q| < 3 then (if |t| == 4 then Some(q) else None)
        else
          match Decode(t[4..])
          case None => None
          case Some(rest) => Some(q + rest)
  }

  function DecodeQuantum(t: string): (r: Option<seq<byte>>)
    requires |t| == 4
    ensures r.Some? ==> 1 <= |r.value| <= 3
  {
    var a, b, c, d := Sextet(t[0]), Sextet(t[1]), Sextet(t[2]), Sextet(t[3]);
    if a.None? || b.None? then None
    else
      var x: byte := a.value * 4 + b.value / 16;
      if c.None? then
        if t[2] == '=' && t[3] == '=' && b.value % 16 == 0 then Some([x]) else None
      else
        var y: byte := b.value % 16 * 16 + c.value / 4;
        if d.None? then
          if t[3] == '=' && c.value % 4 == 0 then Some([x, y]) else None
        else Some([x, y, c.value % 4 * 64 + d.value])
  }

  lemma QuantumIsDecoded(bs: seq<byte>)
    requires 1 <= |bs| <= 3
    ensures DecodeQuantum(Quantum(bs)) == Some(bs)
  {
    hide Symbol, Sextet, First, Second, Third, Fourth;
    PaddingHasNoValue();
    var a := bs[0];
    var b: byte := if |bs| > 1 then bs[1] else 0;
    var c: byte := if |bs| > 2 then bs[2] else 0;
    Rejoin(a, b, c);
    Rejoin(a, b, 0);
    SextetOfSymbol(First(a));
    SextetOfSymbol(Second(a, b));
    SextetOfSymbol(Third(b, c));
    SextetOfSymbol(Fourth(c));
    if |bs| == 1 {
      assert bs == [a];
    } else if |bs| == 2 {
      assert bs == [a, b];
    } else {
      assert bs == [a, b, c];
    }
  }

  lemma PaddingHasNoValue()
    ensures Sextet('=') == None
  {
  }

  /** The decoder recovers every byte string, so the encoder is injective on byte strings. */
  lemma {:induction false} EncodedIsDecoded(bs: seq<byte>)
    ensures Decode(Encode(bs)) == Some(bs)
  {
    hide Quantum, DecodeQuantum;
    if 0 < |bs| <= 3 {
      QuantumIsDecoded(bs);
      assert Encode(bs)[..4] == Quantum(bs) && Encode(bs)[4..] == "";
      assert bs + [] == bs;
    } else if |bs| > 3 {
      QuantumIsDecoded(bs[..3]);
      EncodedIsDecoded(bs[3..]);
      assert Encode(bs)[..4] == Quantum(bs[..3]) && Encode(bs)[4..] == Encode(bs[3..]);
      assert bs[..3] + bs[3..] == bs;
    }
  }

  lemma DecodedQuantumIsEncoded(t: string)
    requires |t| == 4 && DecodeQuantum(t).Some?
    ensures Quantum(DecodeQuantum(t).value) == t
  {
    hide Symbol, Sextet, First, Second, Third, Fourth;
    SymbolOfSextet(t[0]);
    SymbolOfSextet(t[1]);
    var p, q := Sextet(t[0]).value, Sextet(t[1]).value;
    var r := if Sextet(t[2]).Some? then Sextet(t[2]).value else 0;
    var u := if Sextet(t[2]).Some? && Sextet(t[3]).Some? then Sextet(t[3]).value else 0;
    Resplit(p, q, r, u);
    if Sextet(t[2]).Some? {
      SymbolOfSextet(t[2]);
      if Sextet(t[3]).Some? {
        SymbolOfSextet(t[3]);
      }
    }
  }

  /** Whatever the decoder accepts is what the encoder makes of the result: encoder and decoder are inverse. */
  lemma {:induction false} DecodedIsEncoded(t: string)
    requires Decode(t).Some?
    ensures Encode(Decode(t).value) == t
  {
    if t != "" {
      var q := DecodeQuantum(t[..4]).value;
      DecodedQuantumIsEncoded(t[..4]);
      if |q| == 3 {
        var rest := Decode(t[4..]).value;
        DecodedIsEncoded(t[4..]);
        assert t == t[..4] + t[4..];
        assert (q + rest)[..3] == q && (q + rest)[3..] == rest;
        assert rest == [] ==> Encode(rest) == "" && q + rest == q;
      } else {
        assert t[..4] == t;
      }
    }
  }

  /** A string survives encoding and decoding exactly when all its characters are below 256. */
  lemma StringIsRecoveredExactlyWhen(s: CodeUnits)
    ensures
      var r := Decode(Encode(LowBytes(s)));
      && r.Some? && |r.value| == |s|
      && ((forall i | 0 <= i < |s| :: r.value[i] as int == s[i] as int) <==> forall i | 0 <= i < |s| :: s[i] < 0x100)
  {
    hide Encode, Decode;
    EncodedIsDecoded(LowBytes(s));
  }

  /** The code of the symbol for `v` in table 1 of RFC 4648. */
  predicate IsSymbol(c: char, v: nat) {
    if v < 26 then c as int == 0x41 + v
    else if v < 52 then c as int == 0x61 + v - 26
    else if v < 62 then c as int == 0x30 + v - 52
    else v < 64 && c == if v == 62 then '+' else '/'
  }

  lemma {:induction false} QuantumStands(bs: seq<byte>, k: nat)
    requires 3 * k + 3 <= |bs|
    ensures 4 * k + 4 <= |Encode(bs)| && Encode(bs)[4 * k..4 * k + 4] == Quantum(bs[3 * k..3 * k + 3])
    decreases |bs|
  {
    hide Quantum;
    if |bs| == 3 {
      assert bs[0..3] == bs;
    } else if k == 0 {
      assert Encode(bs)[..4] == Quantum(bs[..3]);
    } else {
      QuantumStands(bs[3..], k - 1);
      assert bs[3..][3 * (k - 1)..3 * (k - 1) + 3] == bs[3 * k..3 * k + 3];
      assert Encode(bs)[4..] == Encode(bs[3..]);
      assert Encode(bs)[4 * k..4 * k + 4] == Encode(bs)[4..][4 * (k - 1)..4 * (k - 1) + 4];
    }
  }

  /** Three bytes as one number, the first the highest. */
  function Joined(a: byte, b: byte, c: byte): nat {
    a as int * 0x1_0000 + b as int * 0x100 + c as int
  }

  /** Every three bytes are a number of 24 bits, and their symbols its four digits to the base 64. */
  lemma SymbolsByPosition(bs: seq<byte>, k: nat)
    requires 3 * k + 3 <= |bs|
    ensures 4 * k + 4 <= |Encode(bs)|
    ensures
      var (n, e) := (Joined(bs[3 * k], bs[3 * k + 1], bs[3 * k + 2]), Encode(bs));
      && IsSymbol(e[4 * k], n / 0x4_0000 % 64) && IsSymbol(e[4 * k + 1], n / 0x1000 % 64)
      && IsSymbol(e[4 * k + 2], n / 0x40 % 64) && IsSymbol(e[4 * k + 3], n % 64)
  {
    hide Encode, Symbol, IsSymbol, Joined, First, Second, Third, Fourth;
    QuantumStands(bs, k);
    var q, e := bs[3 * k..3 * k + 3], Encode(bs)[4 * k..4 * k + 4];
    QuantumSymbols(q[0], q[1], q[2]);
    assert q == [q[0], q[1], q[2]];
    assert e[0] == Encode(bs)[4 * k] && e[1] == Encode(bs)[4 * k + 1];
    assert e[2] == Encode(bs)[4 * k + 2] && e[3] == Encode(bs)[4 * k + 3];
  }

  lemma QuantumSymbols(a: byte, b: byte, c: byte)
    ensures
      var (n, e) := (Joined(a, b, c), Quantum([a, b, c]));
      && IsSymbol(e[0], n / 0x4_0000 % 64) && IsSymbol(e[1], n / 0x1000 % 64)
      && IsSymbol(e[2], n / 0x40 % 64) && IsSymbol(e[3], n % 64)
  {
    hide Joined, First, Second, Third, Fourth;
    Digits(a, b, c);
  }

  lemma Digits(a: byte, b: byte, c: byte)
    ensures
      var n := Joined(a, b, c);
      && First(a) == n / 0x4_0000 % 64 && Second(a, b) == n / 0x1000 % 64
      && Third(b, c) == n / 0x40 % 64 && Fourth(c) == n % 64
  {
    var n := Joined(a, b, c);
    var (p, q, r) := (a as int / 4, a as int % 4, b as int / 16);
    var (t, u, v) := (b as int % 16, c as int / 64, c as int % 64);
    assert a as int == 4 * p + q && b as int == 16 * r + t && c as int == 64 * u + v;
    var (second, third) := (64 * p + (16 * q + r), 64 * (64 * p + (16 * q + r)) + (4 * t + u));
    assert n / 0x4_0000 == p by { assert n == 0x4_0000 * p + (0x1_0000 * q + 0x100 * b as int + c as int); }
    assert n / 0x1000 == second by { assert n == 0x1000 * second + (0x100 * t + c as int); }
    assert n / 0x40 == third by { assert n == 0x40 * third + v; }
    assert second % 64 == 16 * q + r && third % 64 == 4 * t + u;
  }
}
