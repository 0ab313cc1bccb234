/**
 * What the bytes of an application information table mean, read at their places: sections 5.3.4 and 5.3.5 of ETSI TS
 * 102 809 as the parser reads them. `None` stands for bytes that do not keep to their own lengths.
 */
module AitLayout {
  import opened Common
  import opened AitModel

  function U16(b: seq<byte>, i: nat): uint16
    requires i + 1 < |b|
  {
    b[i] as int * 256 + b[i + 1] as int
  }

  /** A length of twelve bits. */
  function U12(b: seq<byte>, i: nat): (n: nat)
    requires i + 1 < |b|
    ensures n < 4096
  {
    b[i] as int % 16 * 256 + b[i + 1] as int
  }

  function TextAt(b: seq<byte>, i: nat, n: nat): string
    requires i + n <= |b|
  {
    Text(b[i..i + n])
  }

  /** What stands behind the length byte that `data` begins with. */
  function Body(data: seq<byte>): seq<byte> {
    if data != [] && data[0] as int < |data| then data[1..1 + data[0] as int] else []
  }

  /** `b` begins with `n` texts, each behind a byte with its length. */
  predicate HasTexts(b: seq<byte>, n: nat)
    decreases n
  {
    n == 0 || (b != [] && b[0] as int < |b| && HasTexts(b[1 + b[0] as int..], n - 1))
  }

  function Texts(b: seq<byte>, n: nat): (ss: seq<string>)
    requires HasTexts(b, n)
    ensures |ss| == n
    decreases n
  {
    if n == 0 then [] else [TextAt(b, 1, b[0])] + Texts(b[1 + b[0] as int..], n - 1)
  }

  // ---------------------------------------------------------------- descriptors, from behind their length

  function ProfileAt(p: seq<byte>, i: nat): Profile
    requires i + 4 < |p|
  {
    Profile(U16(p, i), p[i + 2], p[i + 3], p[i + 4])
  }

  function ProfilesAt(p: seq<byte>, n: nat): (ps: seq<Profile>)
    requires 5 * n < |p|
    ensures |ps| == n
    ensures forall i | 0 <= i < n :: ps[i] == ProfileAt(p, 1 + 5 * i)
  {
    seq(n, i requires 0 <= i < n => ProfileAt(p, 1 + 5 * i))
  }

  /** Profiles of five bytes, a byte of flags, the priority, and labels to the end. */
  function ApplicationAt(p: seq<byte>, before: AppDesc): Option<AppDesc> {
    if before.visibility != 2 then Some(before)
    else if p == [] || p[0] as int % 5 != 0 || |p| < p[0] as int + 3 then None
    else
      var flags := 1 + p[0] as int;
      Some(AppDesc(p[flags] as int / 0x20 % 4, p[flags + 1], p[flags] >= 0x80,
                   before.profiles + ProfilesAt(p, p[0] as int / 5), p[flags + 2..]))
  }

  /** A language code of three bytes and a text; only descriptors of one name are read here. */
  function NameAt(p: seq<byte>, before: seq<LangString>): Option<seq<LangString>> {
    if before != [] then Some(before)
    else if p == [] then Some([])
    else if |p| < 5 || |p| != 4 + p[3] as int then None
    else Some([LangString(p[..3], TextAt(p, 4, p[3]))])
  }

  function CarouselAt(p: seq<byte>, blank: Transport): Option<Transport>
    requires |p| > 3
  {
    if p[3] >= 0x80 then
      if |p| < 11 then None
      else Some(blank.(remote := true, dvb := Triplet(U16(p, 4), U16(p, 6), U16(p, 8)), componentTag := p[10]))
    else if |p| < 5 then None
    else Some(blank.(componentTag := p[4]))
  }

  function UrlAt(p: seq<byte>, blank: Transport): Option<Transport>
    requires |p| > 3
  {
    var count := 4 + p[3] as int;
    if |p| <= count || !HasTexts(p[count + 1..], p[count]) then None
    else Some(blank.(baseUrl := TextAt(p, 4, p[3]), extensionUrls := Texts(p[count + 1..], p[count])))
  }

  /** Protocol and label, and behind them what the protocol needs. */
  function TransportAt(p: seq<byte>): Option<Transport>
    requires |p| >= 3
  {
    var blank := Transport(U16(p, 0), p[2], false, Triplet(0, 0, 0), 0, "", [], false);
    if |p| == 3 then Some(blank)
    else if U16(p, 0) == 1 then CarouselAt(p, blank)
    else if U16(p, 0) == 3 then UrlAt(p, blank)
    else Some(blank)
  }

  /** One more of at most two transports; their protocols differ and are not 0. */
  function TransportsAt(p: seq<byte>, before: seq<Transport>): Option<seq<Transport>> {
    if |p| < 3 then Some(before)
    else
      var id := U16(p, 0);
      if id == 0 || |before| >= 2 || (exists i | 0 <= i < |before| :: before[i].protocolId == id) then None
      else if TransportAt(p).None? then None
      else Some(before + [TransportAt(p).value])
  }

  function BoundariesAt(p: seq<byte>, before: seq<string>): Option<seq<string>> {
    if p == [] || !HasTexts(p[1..], p[0]) then None else Some(before + Texts(p[1..], p[0]))
  }

  /** A country of three letters and the age above three. */
  function RatingAt(p: seq<byte>, i: nat): Rating
    requires i + 3 < |p|
  {
    Rating("dvb-si", TextAt(p, i, 3), (p[i + 3] as int + 3) % 256)
  }

  /** The first rating, and the others but those that start in the last four bytes. */
  function RatingsAt(p: seq<byte>, before: seq<Rating>): Option<seq<Rating>> {
    if before != [] then Some(before)
    else if |p| < 4 then None
    else
      var n := if |p| <= 8 then 1 else (|p| - 1) / 4;
      Some(seq(n, i requires 0 <= i < n => RatingAt(p, 4 * i)))
  }

  /** The graphics formats 4, 5 and 6 behind a byte of flags, by their number of lines. */
  function LinesAt(ids: seq<byte>): seq<nat> {
    if ids == [] then []
    else
      (match ids[0] case 4 => [1080] case 5 => [2160] case 6 => [4320] case _ => [])
      + LinesAt(ids[1..])
  }

  function GraphicsAt(p: seq<byte>, before: seq<nat>): seq<nat> {
    if before != [] then before else [720] + if p == [] then [] else LinesAt(p[1..])
  }

  /** The application with what a descriptor of this tag says. */
  function DescriptorAt(tag: byte, p: seq<byte>, app: App): Option<App> {
    match tag
    case 0x00 =>
      var r := ApplicationAt(p, app.desc);
      if r.None? then None else Some(app.(desc := r.value))
    case 0x01 =>
      var r := NameAt(p, app.names);
      if r.None? then None else Some(app.(names := r.value))
    case 0x02 =>
      var r := TransportsAt(p, app.transports);
      if r.None? then None else Some(app.(transports := r.value))
    case 0x14 => Some(app.(graphics := GraphicsAt(p, app.graphics)))
    case 0x15 => Some(if app.location == "" then app.(location := Text(p)) else app)
    case 0x16 => Some(if |p| == 1 && app.usageType != 1 then app.(usageType := p[0]) else app)
    case 0x17 =>
      var r := BoundariesAt(p, app.boundaries);
      if r.None? then None else Some(app.(boundaries := r.value))
    case 0x55 =>
      var r := RatingsAt(p, app.ratings);
      if r.None? then None else Some(app.(ratings := r.value))
    case _ => Some(app)
  }

  /** A loop of descriptors: tag, length and what is behind them. */
  function DescriptorsAt(b: seq<byte>, app: App): Option<App>
    decreases |b|
  {
    if b == [] then Some(app)
    else if |b| < 2 || |b| < 2 + b[1] as int then None
    else
      var r := DescriptorAt(b[0], b[2..2 + b[1] as int], app);
      if r.None? then None else DescriptorsAt(b[2 + b[1] as int..], r.value)
  }

  // ---------------------------------------------------------------- sections

  /** Organisation, application and control code, and a loop of descriptors. */
  function EntryAt(b: seq<byte>): Option<App>
    requires |b| >= 9 && |b| >= 9 + U12(b, 7)
  {
    var orgId := b[0] as int * 0x100_0000 + b[1] as int * 0x1_0000 + b[2] as int * 0x100 + b[3] as int;
    DescriptorsAt(b[9..9 + U12(b, 7)], NewApp(orgId, U16(b, 4), b[6]))
  }

  function EntriesAt(b: seq<byte>): Option<seq<App>>
    decreases |b|
  {
    if b == [] then Some([])
    else if |b| < 9 || |b| < 9 + U12(b, 7) || EntryAt(b).None? then None
    else
      var rest := EntriesAt(b[9 + U12(b, 7)..]);
      if rest.None? then None else Some([EntryAt(b).value] + rest.value)
  }

  /** What a section says: kind of applications, version of the table, its number and the last one's, applications. */
  datatype Contents = Contents(appType: uint16, version: byte, number: byte, last: byte, apps: seq<App>)

  function SectionAt(data: seq<byte>): Option<Contents> {
    if |data| < 10 || |data| < 12 + U12(data, 8) then None
    else
      var start := 10 + U12(data, 8);
      if |data| < start + 2 + U12(data, start) then None
      else
        var apps := EntriesAt(data[start + 2..start + 2 + U12(data, start)]);
        if apps.None? then None
        else Some(Contents(U16(data, 3), data[5] as int / 2 % 32, data[6], data[7], apps.value))
  }
}
