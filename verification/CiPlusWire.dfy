/** The binary messages exchanged with a CI+ module (before base64). */
module CiPlusWire {
  import opened Common
  import opened Decimal

  const URN_PREFIX := "urn:dvb:casystemid:"

  // Numbers

  /** The JavaScript conversion to a signed 32-bit integer. */
  function ToInt32(n: int): (z: int)
    ensures IsInt32(z)
  {
    (n + 0x8000_0000) % 0x1_0000_0000 - 0x8000_0000
  }

  predicate IsInt32(z: int) {
    -0x8000_0000 <= z < 0x8000_0000
  }

  /** `(z >> shift) & 0xff`, where `unit` is two to the power `shift`. */
  function ByteOf(z: int, unit: nat): byte
    requires unit > 0
  {
    z / unit % 0x100
  }

  function TransactionBytes(g: int): (b: seq<byte>)
    ensures |b| == 4
  {
    [ByteOf(g, 0x100_0000), ByteOf(g, 0x1_0000), ByteOf(g, 0x100), ByteOf(g, 1)]
  }

  /** The shifts and additions with which the parser puts the four bytes together. */
  function Transaction(b: seq<byte>): int
    requires |b| == 4
  {
    ToInt32(b[0] as int * 0x100_0000) + b[1] as int * 0x1_0000 + b[2] as int * 0x100 + b[3] as int
  }

  lemma Digits(g: int)
    ensures g == g / 0x100_0000 * 0x100_0000 + g / 0x1_0000 % 0x100 * 0x1_0000 + g / 0x100 % 0x100 * 0x100 + g % 0x100
  {
    var a := g / 0x100;
    var b := a / 0x100;
    assert g / 0x1_0000 == b && g / 0x100_0000 == b / 0x100;
  }

  /** Negative transaction ids survive as well. */
  lemma TransactionSurvives(g: int)
    requires IsInt32(g)
    ensures Transaction(TransactionBytes(g)) == g
  {
    hide ToInt32;
    Digits(g);
    TopByte(g / 0x100_0000);
    assert g / 1 == g;
  }

  lemma TopByte(q: int)
    requires -0x80 <= q < 0x80
    ensures ToInt32(q % 0x100 * 0x100_0000) == q * 0x100_0000
  {
    assert q % 0x100 == if q < 0 then q + 0x100 else q;
  }

  /** The key of a transaction in the table of open messages. */
  function Key(g: int): string {
    "ci+" + SignedNumeral(g)
  }

  lemma KeysDiffer(a: int, b: int)
    ensures Key(a) == Key(b) <==> a == b
  {
    SignedNumeralIsInjective(a, b);
    assert Key(a)[3..] == SignedNumeral(a) && Key(b)[3..] == SignedNumeral(b);
  }

  // CA system ids

  function AfterLastColon(s: string): string {
    if s == [] then [] else if s[|s| - 1] == ':' then [] else AfterLastColon(s[..|s| - 1]) + [s[|s| - 1]]
  }

  /** The longest prefix made of digits. */
  function LeadingDigits(s: string): (d: string)
    ensures AllDigits(d)
  {
    if s == [] || !IsDigit(s[0]) then [] else [s[0]] + LeadingDigits(s[1..])
  }

  /** `urnToInt`; not-a-number counts as 0 in the shifts that follow. */
  function UrnToInt(urn: string): nat {
    Value(LeadingDigits(AfterLastColon(urn)))
  }

  function Urn(n: nat): string {
    URN_PREFIX + Numeral(n)
  }

  lemma {:induction false} DigitsFollowColon(s: string, d: string)
    requires AllDigits(d)
    ensures AfterLastColon(s + [':'] + d) == d
  {
    var t := s + [':'] + d;
    if d == [] {
      assert t[|t| - 1] == ':';
    } else {
      assert t[..|t| - 1] == s + [':'] + d[..|d| - 1];
      DigitsFollowColon(s, d[..|d| - 1]);
    }
  }

  lemma {:induction false} AllLeadingDigits(d: string)
    requires AllDigits(d)
    ensures LeadingDigits(d) == d
  {
    if d != [] {
      AllLeadingDigits(d[1..]);
    }
  }

  lemma UrnIsRead(n: nat)
    ensures UrnToInt(Urn(n)) == n
  {
    assert Urn(n) == "urn:dvb:casystemid" + [':'] + Numeral(n);
    DigitsFollowColon("urn:dvb:casystemid", Numeral(n));
    AllLeadingDigits(Numeral(n));
    NumeralValue(n);
  }

  // Hexadecimal payloads

  predicate IsHexDigit(c: char) {
    '0' <= c <= '9' || 'a' <= c <= 'f' || 'A' <= c <= 'F'
  }

  /** `hexBinary`: pairs of hexadecimal digits. */
  predicate IsHexBinary(data: string) {
    |data| % 2 == 0 && forall i | 0 <= i < |data| :: IsHexDigit(data[i])
  }

  predicate IsLowerCase(data: string) {
    forall i | 0 <= i < |data| :: !('A' <= data[i] <= 'F')
  }

  function Nibble(c: char): (v: nat)
    requires IsHexDigit(c)
    ensures v < 16
  {
    if c <= '9' then c as int - '0' as int
    else if c <= 'F' then c as int - 'A' as int + 10
    else c as int - 'a' as int + 10
  }

  function HexDigit(v: nat): (c: char)
    requires v < 16
    ensures IsHexDigit(c) && Nibble(c) == v && !('A' <= c <= 'F')
  {
    if v < 10 then ('0' as int + v) as char else ('a' as int + v - 10) as char
  }

  function PairValue(hi: char, lo: char): byte
    requires IsHexDigit(hi) && IsHexDigit(lo)
  {
    Nibble(hi) * 16 + Nibble(lo)
  }

  function Unhex(data: string): (bs: seq<byte>)
    requires IsHexBinary(data)
    ensures |bs| == |data| / 2
  {
    seq(|data| / 2, i requires 0 <= i < |data| / 2 => PairValue(data[2 * i], data[2 * i + 1]))
  }

  /** The values of `charCodeAt`: a byte, or nothing for not-a-number. */
  type Code = Option<byte>

  function Codes(bs: seq<byte>): (cs: seq<Code>)
    ensures |cs| == |bs|
    ensures forall i | 0 <= i < |bs| :: cs[i] == Some(bs[i])
  {
    seq(|bs|, i requires 0 <= i < |bs| => Some(bs[i]))
  }

  /** `('0' + code.toString(16)).slice(-2)`, one half of it; of not-a-number it leaves the letters "aN". */
  function HexHalf(c: Code, upper: bool): char {
    match c
    case None => if upper then 'a' else 'N'
    case Some(b) => HexDigit(if upper then b as int / 16 else b as int % 16)
  }

  function HexOf(cs: seq<Code>): (data: string)
    ensures |data| == 2 * |cs|
  {
    seq(2 * |cs|, i requires 0 <= i < 2 * |cs| => HexHalf(cs[i / 2], i % 2 == 0))
  }

  lemma HexDigitOfNibble(c: char)
    requires IsHexDigit(c)
    ensures HexDigit(Nibble(c)) == c <==> !('A' <= c <= 'F')
  {
  }

  /** Printing what was read gives the text back, exactly when it was in lower case. */
  lemma HexRoundTripExactlyWhen(data: string)
    requires IsHexBinary(data)
    ensures HexOf(Codes(Unhex(data))) == data <==> IsLowerCase(data)
  {
    var back := HexOf(Codes(Unhex(data)));
    forall i | 0 <= i < |data| ensures back[i] == HexDigit(Nibble(data[i])) {
      HexAt(data, i);
    }
    forall i | 0 <= i < |data| ensures back[i] == data[i] <==> !('A' <= data[i] <= 'F') {
      HexDigitOfNibble(data[i]);
    }
    if IsLowerCase(data) {
      assert back == data;
    }
  }

  lemma HexAt(data: string, i: nat)
    requires IsHexBinary(data) && i < |data|
    ensures HexOf(Codes(Unhex(data)))[i] == HexDigit(Nibble(data[i]))
  {
    var b := Unhex(data)[i / 2];
    assert b == PairValue(data[2 * (i / 2)], data[2 * (i / 2) + 1]);
    assert b as int / 16 == Nibble(data[2 * (i / 2)]) && b as int % 16 == Nibble(data[2 * (i / 2) + 1]);
  }

  // What parseInt makes of two characters that need not be hexadecimal

  predicate IsSpace(c: char) {
    || '\t' <= c <= '\r' || c == ' ' || c in {'\U{00A0}', '\U{1680}', '\U{2028}', '\U{2029}', '\U{202F}', '\U{205F}',
                                             '\U{3000}', '\U{FEFF}'}
    || '\U{2000}' <= c <= '\U{200A}'
  }

  function TrimStart(s: string): string {
    if s != [] && IsSpace(s[0]) then TrimStart(s[1..]) else s
  }

  /** The value of the longest prefix of hexadecimal digits; `acc` is that of the digits before. */
  function HexPrefix(s: string, acc: nat): nat
    decreases |s|
  {
    if s != [] && IsHexDigit(s[0]) then HexPrefix(s[1..], 16 * acc + Nibble(s[0])) else acc
  }

  function DropPrefix(s: string): string {
    if |s| >= 2 && s[0] == '0' && (s[1] == 'x' || s[1] == 'X') then s[2..] else s
  }

  /** `parseInt(s, 16)`; not-a-number becomes 0 in `String.fromCharCode`. */
  function ParseInt16(s: string): int {
    var t := TrimStart(s);
    if t != [] && t[0] == '-' then 0 - HexPrefix(DropPrefix(t[1..]), 0) as int
    else if t != [] && t[0] == '+' then HexPrefix(DropPrefix(t[1..]), 0)
    else HexPrefix(DropPrefix(t), 0)
  }

  lemma HexPairIsParsed(hi: char, lo: char)
    requires IsHexDigit(hi) && IsHexDigit(lo)
    ensures ParseInt16([hi, lo]) == PairValue(hi, lo)
  {
    var s := [hi, lo];
    assert TrimStart(s) == s && DropPrefix(s) == s;
    assert s[1..] == [lo] && [lo][1..] == [];
    assert HexPrefix([], 16 * Nibble(hi) + Nibble(lo)) == PairValue(hi, lo);
    assert HexPrefix([lo], Nibble(hi)) == PairValue(hi, lo);
  }

  /** What is pushed for the payload, two characters at a time; of an odd number the last stands alone. */
  function Pushed(data: string): (ps: seq<int>)
    ensures |ps| == (|data| + 1) / 2
  {
    seq((|data| + 1) / 2, i requires 0 <= i < (|data| + 1) / 2 => ParseInt16(data[2 * i..Min(2 * i + 2, |data|)]))
  }

  /** Base64 refuses the code units of negative numbers. */
  predicate Encodable(ps: seq<int>) {
    forall i | 0 <= i < |ps| :: 0 <= ps[i] < 0x100
  }

  function AsBytes(ps: seq<int>): (bs: seq<byte>)
    requires Encodable(ps)
    ensures |bs| == |ps|
  {
    seq(|ps|, i requires 0 <= i < |ps| => ps[i])
  }

  lemma HexDataIsPushed(data: string)
    requires IsHexBinary(data)
    ensures Encodable(Pushed(data)) && AsBytes(Pushed(data)) == Unhex(data)
  {
    forall i | 0 <= i < |data| / 2 ensures Pushed(data)[i] == PairValue(data[2 * i], data[2 * i + 1]) {
      assert data[2 * i..2 * i + 2] == [data[2 * i], data[2 * i + 1]];
      HexPairIsParsed(data[2 * i], data[2 * i + 1]);
    }
  }

  // Messages

  function Head(command: byte, urn: string, g: int): seq<byte> {
    var id := UrnToInt(urn);
    [command, ByteOf(id, 0x100), ByteOf(id, 1)] + TransactionBytes(g)
  }

  /** A message with one data type, `len` standing for the length of its payload. */
  function Message(command: byte, urn: string, g: int, datatypeId: byte, len: nat, payload: seq<byte>): seq<byte> {
    Head(command, urn, g) + ([1, datatypeId, ByteOf(len, 0x100), ByteOf(len, 1)] + payload)
  }

  /** `serializeCiplusMessage` for any data; `None` is the exception of the base64 encoder. */
  function Serialized(command: byte, urn: string, g: int, datatypeId: byte, data: string): (r: Option<seq<byte>>)
    ensures r.Some? ==> |r.value| >= 11
  {
    var ps := Pushed(data);
    if Encodable(ps) then Some(Message(command, urn, g, datatypeId, |data| / 2, AsBytes(ps))) else None
  }

  datatype Header = Header(command: byte, caSystemId: string, key: string)

  /** The first seven bytes of a message, as `handleCiPlusMessage` reads them. */
  function ParseHeader(m: seq<byte>): Header
    requires |m| >= 7
  {
    Header(m[0], Urn(Word(m[1], m[2])), Key(Transaction(m[3..7])))
  }

  /** One value in a message, by its data type. */
  datatype Datum =
    | Hex(text: string)
    | Country(first: Code, second: Code)
    | Url(url: Option<string>)
    | Small(value: Code)

  /** `Throws`: the branch for other data types uses a variable that does not exist there. */
  datatype Extraction = Types(types: map<byte, seq<Datum>>) | Throws

  function Add(types: map<byte, seq<Datum>>, id: byte, d: Datum): map<byte, seq<Datum>> {
    types[id := (if id in types then types[id] else []) + [d]]
  }

  /** An index that may have become not-a-number, which is where `None` stands for it. */
  type Index = Option<nat>

  /** `charCodeAt(index + k)`: not-a-number counts as position 0, and behind the end there is no code. */
  function CodeAt(m: seq<byte>, index: Index, k: nat): Code {
    var i := if index.None? then 0 else index.value + k;
    if i < |m| then Some(m[i]) else None
  }

  /** The length of a value: the shift turns a missing high byte into 0, the sum keeps a missing low one. */
  function LengthAt(m: seq<byte>, index: Index): Option<nat> {
    var hi, lo := CodeAt(m, index, 1), CodeAt(m, index, 2);
    if lo.None? then None else Some((if hi.None? then 0 else hi.value as int * 0x100) + lo.value as int)
  }

  function Plus(index: Index, n: Option<nat>): Index {
    if index.None? || n.None? then None else Some(index.value + n.value)
  }

  /** `substring`: not-a-number counts as 0, and bounds in the wrong order are exchanged. */
  function Substring(m: seq<byte>, from: Index, to: Index): string {
    var a := if from.None? then 0 else Min(from.value, |m|);
    var b := if to.None? then 0 else Min(to.value, |m|);
    Text(if a <= b then m[a..b] else m[b..a])
  }

  function CodesFrom(m: seq<byte>, at: Index, n: nat): (cs: seq<Code>)
    ensures |cs| == n
    ensures forall k | 0 <= k < n :: cs[k] == CodeAt(m, at, k)
  {
    seq(n, k requires 0 <= k < n => CodeAt(m, at, k))
  }

  /** The value of length `len` at `at`. */
  function ReadDatum(m: seq<byte>, id: byte, at: Index, len: Option<nat>): Datum
    requires 1 <= id <= 8
  {
    if id == 1 then Hex(if len.None? then "" else HexOf(CodesFrom(m, at, len.value)))
    else if id == 2 then Country(CodeAt(m, at, 0), CodeAt(m, at, 1))
    else if id == 3 || id == 6 then Url(if len == Some(0) then None else Some(Substring(m, at, Plus(at, len))))
    else Small(CodeAt(m, at, 0))
  }

  function ExtractFrom(m: seq<byte>, index: Index, n: nat, types: map<byte, seq<Datum>>): Extraction
    decreases n
  {
    if n == 0 then Types(types)
    else
      var id := CodeAt(m, index, 0);
      if id.None? || !(1 <= id.value <= 8) then Throws
      else
        var at, len := Plus(index, Some(3)), LengthAt(m, index);
        ExtractFrom(m, Plus(at, len), n - 1, Add(types, id.value, ReadDatum(m, id.value, at, len)))
  }

  function Extract(m: seq<byte>): Extraction {
    if |m| < 8 then Types(map[]) else ExtractFrom(m, Some(8), m[7], map[])
  }

  /** Nothing is filed under a data type but values of its kind, in the order of the message. */
  ghost predicate Typed(types: map<byte, seq<Datum>>) {
    forall id | id in types ::
      && types[id] != []
      && forall d | d in types[id] ::
           if id == 1 then d.Hex? else if id == 2 then d.Country? else if id == 3 || id == 6 then d.Url? else d.Small?
  }

  lemma {:induction false} ExtractedIsTyped(m: seq<byte>, index: Index, n: nat, types: map<byte, seq<Datum>>)
    requires Typed(types)
    ensures ExtractFrom(m, index, n, types).Types? ==> Typed(ExtractFrom(m, index, n, types).types)
    decreases n
  {
    var id := CodeAt(m, index, 0);
    if n > 0 && id.Some? && 1 <= id.value <= 8 {
      var at, len := Plus(index, Some(3)), LengthAt(m, index);
      var d := ReadDatum(m, id.value, at, len);
      AddedIsTyped(types, id.value, d);
      hide Typed, Add;
      ExtractedIsTyped(m, Plus(at, len), n - 1, Add(types, id.value, d));
    }
  }

  lemma AddedIsTyped(types: map<byte, seq<Datum>>, id: byte, d: Datum)
    requires Typed(types)
    requires if id == 1 then d.Hex? else if id == 2 then d.Country? else if id == 3 || id == 6 then d.Url? else d.Small?
    ensures Typed(Add(types, id, d))
  {
  }

  /** The inner loop of `extractDataTypes`: two characters a code, none at all when the length is not a number. */
  method ReadHex(m: seq<byte>, at: Index, len: Option<nat>) returns (text: string)
    ensures text == if len.None? then "" else HexOf(CodesFrom(m, at, len.value))
  {
    text := [];
    var x := 0;
    while len.Some? && x < len.value
      invariant 0 <= x && (len.Some? ==> x <= len.value) && (len.None? ==> x == 0)
      invariant text == HexOf(CodesFrom(m, at, x))
      decreases if len.None? then 0 else len.value - x
    {
      var c := CodeAt(m, at, x);
      assert CodesFrom(m, at, x + 1) == CodesFrom(m, at, x) + [c];
      HexOneMore(CodesFrom(m, at, x), c);
      text := text + [HexHalf(c, true), HexHalf(c, false)];
      x := x + 1;
    }
  }

  lemma HexOneMore(cs: seq<Code>, c: Code)
    ensures HexOf(cs + [c]) == HexOf(cs) + [HexHalf(c, true), HexHalf(c, false)]
  {
    var more := HexOf(cs + [c]);
    forall i | 0 <= i < 2 * |cs| ensures more[i] == HexOf(cs)[i] {
      assert (cs + [c])[i / 2] == cs[i / 2];
    }
    assert (cs + [c])[(2 * |cs|) / 2] == c && (cs + [c])[(2 * |cs| + 1) / 2] == c;
  }

  method ExtractDataTypes(m: seq<byte>) returns (r: Extraction)
    ensures r == Extract(m)
  {
    if |m| < 8 {
      return Types(map[]);
    }
    var index: Index := Some(8);
    var types: map<byte, seq<Datum>> := map[];
    var i: nat := 0;
    while i < m[7]
      invariant i <= m[7] as int
      invariant ExtractFrom(m, index, m[7] - i, types) == Extract(m)
    {
      hide CodeAt, LengthAt, CodesFrom, HexOf, Substring, Add;
      var id, len := CodeAt(m, index, 0), LengthAt(m, index);
      index := Plus(index, Some(3));
      if id.None? || !(1 <= id.value <= 8) {
        return Throws;
      }
      var d;
      if id.value == 1 {
        var text := ReadHex(m, index, len);
        d := Hex(text);
      } else {
        d := ReadDatum(m, id.value, index, len);
      }
      types := Add(types, id.value, d);
      index := Plus(index, len);
      i := i + 1;
    }
    r := Types(types);
  }

  // Round trips

  /** A data type and its bytes, as they stand in a message. */
  datatype Entry = Entry(id: byte, value: seq<byte>)

  /** Known data types with as many bytes as their reader looks at. */
  predicate WellFormed(e: Entry) {
    && 1 <= e.id <= 8 && |e.value| < 0x1_0000
    && (e.id == 2 ==> |e.value| >= 2)
    && (e.id in {4, 5, 7, 8} ==> |e.value| >= 1)
  }

  function Encode(e: Entry): seq<byte>
    requires |e.value| < 0x1_0000
  {
    [e.id] + (Be16(|e.value|) + e.value)
  }

  ghost predicate AllWellFormed(es: seq<Entry>) {
    forall e | e in es :: WellFormed(e)
  }

  function EncodeAll(es: seq<Entry>): seq<byte>
    requires AllWellFormed(es)
  {
    if es == [] then [] else
      assert es[0] in es && AllWellFormed(es[1..]);
      Encode(es[0]) + EncodeAll(es[1..])
  }

  function Meaning(e: Entry): Datum
    requires WellFormed(e)
  {
    if e.id == 1 then Hex(HexOf(Codes(e.value)))
    else if e.id == 2 then Country(Some(e.value[0]), Some(e.value[1]))
    else if e.id == 3 || e.id == 6 then Url(if e.value == [] then None else Some(Text(e.value)))
    else Small(Some(e.value[0]))
  }

  function Collect(types: map<byte, seq<Datum>>, es: seq<Entry>): map<byte, seq<Datum>>
    requires AllWellFormed(es)
    decreases |es|
  {
    if es == [] then types else
      assert es[0] in es && AllWellFormed(es[1..]);
      Collect(Add(types, es[0].id, Meaning(es[0])), es[1..])
  }

  lemma DatumIsRead(m: seq<byte>, at: nat, e: Entry, tail: seq<byte>)
    requires WellFormed(e) && at <= |m| && m[at..] == e.value + tail
    ensures ReadDatum(m, e.id, Some(at), Some(|e.value|)) == Meaning(e)
    ensures at + |e.value| <= |m| && m[at + |e.value|..] == tail
  {
    Cut(m[at..], e.value, tail);
    assert m[at..at + |e.value|] == e.value;
    assert m[at..][|e.value|..] == m[at + |e.value|..];
    assert forall k | 0 <= k < |e.value| :: m[at + k] == e.value[k];
    assert CodesFrom(m, Some(at), |e.value|) == Codes(e.value);
  }

  lemma EntryBytes(e: Entry, rest: seq<byte>)
    requires |e.value| < 0x1_0000
    ensures Encode(e) + rest == [e.id] + (Be16(|e.value|) + (e.value + rest))
  {
  }

  lemma OneEntryIsRead(m: seq<byte>, index: nat, n: nat, e: Entry, rest: seq<byte>, types: map<byte, seq<Datum>>)
    requires WellFormed(e) && index <= |m| && m[index..] == Encode(e) + rest && n > 0
    ensures index + 3 + |e.value| <= |m| && m[index + 3 + |e.value|..] == rest
    ensures ExtractFrom(m, Some(index), n, types)
            == ExtractFrom(m, Some(index + 3 + |e.value|), n - 1, Add(types, e.id, Meaning(e)))
  {
    hide ReadDatum, Meaning, Add, Encode, CodeAt, LengthAt, Be16;
    EntryBytes(e, rest);
    EntryHead(m, index, e, e.value + rest);
    DatumIsRead(m, index + 3, e, rest);
  }

  lemma SplitEntries(es: seq<Entry>, types: map<byte, seq<Datum>>)
    requires AllWellFormed(es) && es != []
    ensures WellFormed(es[0]) && AllWellFormed(es[1..])
    ensures EncodeAll(es) == Encode(es[0]) + EncodeAll(es[1..])
    ensures Collect(types, es) == Collect(Add(types, es[0].id, Meaning(es[0])), es[1..])
  {
    assert es[0] in es;
  }

  lemma NoEntries(m: seq<byte>, index: nat, types: map<byte, seq<Datum>>)
    ensures AllWellFormed([]) && ExtractFrom(m, Some(index), 0, types) == Types(Collect(types, []))
  {
  }

  /** Every list of data types is read back, whatever follows it. */
  lemma {:induction false} EntriesAreRecovered(
    m: seq<byte>, index: nat, es: seq<Entry>, tail: seq<byte>, types: map<byte, seq<Datum>>)
    requires AllWellFormed(es) && index <= |m| && m[index..] == EncodeAll(es) + tail
    ensures ExtractFrom(m, Some(index), |es|, types) == Types(Collect(types, es))
    decreases |es|
  {
    NoEntries(m, index, types);
    hide Encode, Meaning, Add, ExtractFrom, EncodeAll, Collect, AllWellFormed, WellFormed;
    if es != [] {
      SplitEntries(es, types);
      Regroup(Encode(es[0]), EncodeAll(es[1..]), tail);
      OneEntryIsRead(m, index, |es|, es[0], EncodeAll(es[1..]) + tail, types);
      EntriesAreRecovered(m, index + 3 + |es[0].value|, es[1..], tail, Add(types, es[0].id, Meaning(es[0])));
    }
  }

  lemma EntryHead(m: seq<byte>, index: nat, e: Entry, rest: seq<byte>)
    requires index <= |m| && |e.value| < 0x1_0000
    requires m[index..] == [e.id] + (Be16(|e.value|) + rest)
    ensures index + 3 <= |m| && CodeAt(m, Some(index), 0) == Some(e.id)
    ensures LengthAt(m, Some(index)) == Some(|e.value|)
    ensures m[index + 3..] == rest
  {
    var s := m[index..];
    assert s[0] == e.id && s[1] == Be16(|e.value|)[0] && s[2] == Be16(|e.value|)[1];
    assert m[index + 3..] == s[3..];
  }

  lemma LowBytes(n: nat)
    ensures n % 0x1_0000 / 0x100 == n / 0x100 % 0x100 && n % 0x1_0000 % 0x100 == n % 0x100
  {
    var q, a, b := n / 0x1_0000, n % 0x1_0000 / 0x100, n % 0x1_0000 % 0x100;
    assert n == 0x1_0000 * q + 0x100 * a + b;
    assert n / 0x100 == 0x100 * q + a;
  }

  lemma LowWord(len: nat)
    ensures len % 0x1_0000 <= len
    ensures Be16(len % 0x1_0000) == [ByteOf(len, 0x100), ByteOf(len, 1)]
    ensures Word(ByteOf(len, 0x100), ByteOf(len, 1)) == len % 0x1_0000
  {
    LowBytes(len);
    assert len / 1 == len;
  }

  lemma HeadIsRead(m: seq<byte>, command: byte, urn: string, g: int)
    requires IsInt32(g) && Head(command, urn, g) <= m
    ensures |m| >= 7 && m[0] == command && Word(m[1], m[2]) == UrnToInt(urn) % 0x1_0000 && Transaction(m[3..7]) == g
  {
    hide UrnToInt, Transaction, Word, ByteOf;
    assert m[3..7] == TransactionBytes(g);
    TransactionSurvives(g);
    LowWord(UrnToInt(urn));
  }

  /** A name that the parser could have printed. */
  ghost predicate IsCanonical(urn: string) {
    exists n: nat :: n < 0x1_0000 && urn == Urn(n)
  }

  lemma NameComesBackExactlyWhen(urn: string)
    ensures Urn(UrnToInt(urn) % 0x1_0000) == urn <==> IsCanonical(urn)
  {
    if IsCanonical(urn) {
      var n: nat :| n < 0x1_0000 && urn == Urn(n);
      UrnIsRead(n);
    }
  }

  /** Command and key of a serialized message always come back; the name of the CA system exactly when canonical. */
  lemma HeaderRoundTripExactlyWhen(command: byte, urn: string, g: int, datatypeId: byte, data: string)
    requires IsInt32(g) && Serialized(command, urn, g, datatypeId, data).Some?
    ensures
      var h := ParseHeader(Serialized(command, urn, g, datatypeId, data).value);
      && h.command == command && h.key == Key(g)
      && (h.caSystemId == urn <==> IsCanonical(urn))
  {
    hide Key, Urn, UrnToInt, IsCanonical, Pushed, Encodable, AsBytes, Transaction, Word;
    NameComesBackExactlyWhen(urn);
    HeadIsRead(Serialized(command, urn, g, datatypeId, data).value, command, urn, g);
  }

  function One(text: string): map<byte, seq<Datum>> {
    map[1 := [Hex(text)]]
  }

  lemma SameEntry(a: string, b: string)
    ensures One(a) == One(b) <==> a == b
  {
    assert One(a)[1][0] == Hex(a) && One(b)[1][0] == Hex(b);
  }

  /** What is read back of a payload whose length is given as `len`: the length is reduced to 16 bits. */
  function Short(payload: seq<byte>, len: nat): seq<byte>
    requires len <= |payload|
  {
    payload[..len % 0x1_0000]
  }

  lemma MessageTail(command: byte, urn: string, g: int, len: nat, payload: seq<byte>)
    requires len <= |payload|
    ensures
      var m := Message(command, urn, g, 1, len, payload);
      && |m| == 11 + |payload| && m[7] == 1
      && m[8..] == Encode(Entry(1, Short(payload, len))) + payload[len % 0x1_0000..]
  {
    var m, short := Message(command, urn, g, 1, len, payload), Short(payload, len);
    LowWord(len);
    assert m[8..] == [1, ByteOf(len, 0x100), ByteOf(len, 1)] + payload;
    assert payload == short + payload[|short|..];
    assert [1] + Be16(|short|) == [1, ByteOf(len, 0x100), ByteOf(len, 1)];
  }

  /** What the parser finds in such a message. */
  lemma PayloadIsRead(command: byte, urn: string, g: int, len: nat, payload: seq<byte>)
    requires len <= |payload|
    ensures Extract(Message(command, urn, g, 1, len, payload)) == Types(One(HexOf(Codes(Short(payload, len)))))
  {
    var e := Entry(1, Short(payload, len));
    MessageTail(command, urn, g, len, payload);
    assert Meaning(e) == Hex(HexOf(Codes(e.value)));
    OnlyEntry(e);
    hide Message, HexOf, Meaning, Encode, Collect;
    EntriesAreRecovered(Message(command, urn, g, 1, len, payload), 8, [e], payload[len % 0x1_0000..], map[]);
  }

  lemma OnlyEntry(e: Entry)
    requires WellFormed(e) && e.id == 1
    ensures AllWellFormed([e]) && EncodeAll([e]) == Encode(e)
    ensures Collect(map[], [e]) == One(HexOf(Codes(e.value)))
  {
    assert [e][1..] == [] && EncodeAll([]) == [];
    assert Encode(e) + [] == Encode(e);
    var none: map<byte, seq<Datum>> := map[];
    var d := Meaning(e);
    assert Collect(none, [e]) == Collect(Add(none, e.id, d), []);
    assert [] + [d] == [d];
  }

  lemma HexOfIsHexBinary(bs: seq<byte>)
    ensures IsHexBinary(HexOf(Codes(bs)))
  {
  }

  lemma HexTextComesBackExactlyWhen(data: string)
    requires IsHexBinary(data)
    ensures HexOf(Codes(Short(Unhex(data), |data| / 2))) == data <==> IsLowerCase(data) && |data| < 2 * 0x1_0000
  {
    HexRoundTripExactlyWhen(data);
    var payload, len := Unhex(data), |data| / 2;
    hide HexOf, Unhex, IsLowerCase;
    if |data| < 2 * 0x1_0000 {
      assert len % 0x1_0000 == len && payload[..len] == payload;
    } else {
      assert |HexOf(Codes(payload[..len % 0x1_0000]))| < |data|;
    }
  }

  lemma TextComesBackExactlyWhen(data: string)
    requires Encodable(Pushed(data))
    ensures
      HexOf(Codes(Short(AsBytes(Pushed(data)), |data| / 2))) == data
      <==> IsHexBinary(data) && IsLowerCase(data) && |data| < 2 * 0x1_0000
  {
    hide HexOf, Unhex, IsHexBinary, IsLowerCase, Short, Pushed, Encodable, AsBytes;
    HexOfIsHexBinary(Short(AsBytes(Pushed(data)), |data| / 2));
    if IsHexBinary(data) {
      HexDataIsPushed(data);
      HexTextComesBackExactlyWhen(data);
    }
  }

  /**
   * Of any data whatever: it is serialized and its payload comes back exactly when the data is hexadecimal, in lower
   * case and not too long for a length of 16 bits.
   */
  lemma PayloadRoundTripExactlyWhen(command: byte, urn: string, g: int, data: string)
    ensures
      var m := Serialized(command, urn, g, 1, data);
      m.Some? && Extract(m.value) == Types(One(data))
      <==> IsHexBinary(data) && IsLowerCase(data) && |data| < 2 * 0x1_0000
  {
    hide Message, Extract, One, HexOf, Unhex, IsHexBinary, IsLowerCase, Short, Encodable;
    if Encodable(Pushed(data)) {
      var payload, len := AsBytes(Pushed(data)), |data| / 2;
      PayloadIsRead(command, urn, g, len, payload);
      TextComesBackExactlyWhen(data);
      SameEntry(HexOf(Codes(Short(payload, len))), data);
    } else if IsHexBinary(data) {
      HexDataIsPushed(data);
    }
  }

  // Where the fields stand

  /** The number that four bytes stand for, the first the highest. */
  function Number(b: seq<byte>): nat
    requires |b| == 4
  {
    b[0] as int * 0x100_0000 + b[1] as int * 0x1_0000 + b[2] as int * 0x100 + b[3] as int
  }

  /**
   * The bytes of a message: command, CA system and transaction id (of which the low 16 and 32 bits), one data type,
   * its id, the low 16 bits of its length, and the payload; numbers have their highest byte first.
   */
  lemma MessageByPosition(command: byte, urn: string, g: int, datatypeId: byte, len: nat, payload: seq<byte>)
    ensures
      var m := Message(command, urn, g, datatypeId, len, payload);
      && |m| == 11 + |payload|
      && m[0] == command && m[1] as int * 0x100 + m[2] as int == UrnToInt(urn) % 0x1_0000
      && Number(m[3..7]) == g % 0x1_0000_0000
      && m[7] == 1 && m[8] == datatypeId && m[9] as int * 0x100 + m[10] as int == len % 0x1_0000
      && m[11..] == payload
  {
    hide UrnToInt, ByteOf, Number, TransactionBytes;
    var m := Message(command, urn, g, datatypeId, len, payload);
    LowWord(UrnToInt(urn));
    LowWord(len);
    NumberOfBytes(g);
    assert |TransactionBytes(g)| == 4;
    assert m[3..7] == TransactionBytes(g);
  }

  lemma Remainder(g: int, q: int, r: int)
    requires g == 0x1_0000_0000 * q + r && 0 <= r < 0x1_0000_0000
    ensures g % 0x1_0000_0000 == r
  {
  }

  lemma NumberOfBytes(g: int)
    ensures Number(TransactionBytes(g)) == g % 0x1_0000_0000
  {
    var d := g / 0x100_0000;
    Digits(g);
    assert d == 0x100 * (d / 0x100) + d % 0x100 && g / 1 == g;
    Remainder(g, d / 0x100, Number(TransactionBytes(g)));
  }

  /** The value of a hexadecimal digit in either case. */
  function DigitValue(c: char): nat
    requires IsHexDigit(c)
  {
    if '0' <= c <= '9' then c as nat - 0x30 else if 'A' <= c <= 'F' then c as nat - 0x41 + 10 else c as nat - 0x61 + 10
  }

  /** Hexadecimal data is pushed byte by byte, the higher digit first. */
  lemma PayloadByPosition(data: string, i: nat)
    requires IsHexBinary(data) && 2 * i < |data|
    ensures Encodable(Pushed(data)) && |AsBytes(Pushed(data))| == |data| / 2 && 2 * i + 1 < |data|
    ensures AsBytes(Pushed(data))[i] as int == 16 * DigitValue(data[2 * i]) + DigitValue(data[2 * i + 1])
  {
    HexDataIsPushed(data);
  }

  /** `substring` takes its bounds in either order, cut to the text, and not-a-number for 0. */
  lemma SubstringIsBetween(m: seq<byte>, a: nat, b: nat)
    ensures a <= b <= |m| ==> Substring(m, Some(a), Some(b)) == Text(m[a..b])
    ensures b > |m| ==> Substring(m, Some(a), Some(b)) == Substring(m, Some(a), Some(|m|))
    ensures Substring(m, Some(a), Some(b)) == Substring(m, Some(b), Some(a))
    ensures Substring(m, None, Some(b)) == Substring(m, Some(0), Some(b))
    ensures Substring(m, Some(a), None) == Substring(m, Some(a), Some(0))
  {
  }

  /** What two characters are worth to `parseInt`: digits up to the first other character, behind space or a sign. */
  lemma PairsAreParsed(a: char, b: char)
    ensures
      var v := ParseInt16([a, b]);
      if IsHexDigit(a) then
        v == if IsHexDigit(b) then 16 * DigitValue(a) + DigitValue(b) else DigitValue(a) as int
      else if (IsSpace(a) || a == '+') && IsHexDigit(b) then v == DigitValue(b)
      else if a == '-' && IsHexDigit(b) then v + DigitValue(b) == 0
      else v == 0
    ensures ParseInt16([a]) == if IsHexDigit(a) then DigitValue(a) as int else 0
  {
    var (s, t) := ([a, b], [b]);
    assert s[1..] == t && t[1..] == [] && [a][1..] == [] && s[2..] == [];
    assert forall n: nat :: HexPrefix([], n) == n;
    assert forall n: nat :: HexPrefix(t, n) == if IsHexDigit(b) then 16 * n + Nibble(b) else n;
    assert HexPrefix([a], 0) == if IsHexDigit(a) then Nibble(a) as int else 0;
    assert HexPrefix(s, 0) == if IsHexDigit(a) then HexPrefix(t, Nibble(a)) else 0;
    assert TrimStart([]) == [];
    assert TrimStart(t) == if IsSpace(b) then [] else t;
    assert TrimStart([a]) == if IsSpace(a) then [] else [a];
    assert TrimStart(s) == if IsSpace(a) then TrimStart(t) else s;
    hide TrimStart, HexPrefix, IsSpace;
  }
}
