/**
 * The descriptors of one application: `Descriptor` is the syntax of section 5.3 of ETSI TS 102 809, `Encode` its wire
 * form and `Apply` what receiving one means for the application entry. `AitLayout` says what the bytes mean without
 * this syntax, and `AitPositions` that the two agree.
 */
module AitSyntax {
  import opened Common
  import opened AitModel

  const TAG_APP: byte := 0x00
  const TAG_NAME: byte := 0x01
  const TAG_TRANSPORT: byte := 0x02
  const TAG_GRAPHICS: byte := 0x14
  const TAG_LOCATION: byte := 0x15
  const TAG_USAGE: byte := 0x16
  const TAG_BOUNDARY: byte := 0x17
  const TAG_RATING: byte := 0x55

  const KNOWN_TAGS: set<byte> :=
    {TAG_APP, TAG_NAME, TAG_TRANSPORT, TAG_GRAPHICS, TAG_LOCATION, TAG_USAGE, TAG_BOUNDARY, TAG_RATING}

  datatype Selector =
    | NoSelector
    | Carousel(remote: bool, reserved: byte, dvb: Triplet, componentTag: byte)
    | Url(baseUrl: string, extensionUrls: seq<string>)
    | OtherSelector(bytes: seq<byte>)

  datatype Descriptor =
    | ApplicationDescriptor(profiles: seq<Profile>, serviceBound: bool, visibility: byte, reserved: byte,
                            priority: byte, labels: seq<byte>)
    | NameDescriptor(names: seq<LangString>)
    | TransportDescriptor(protocolId: uint16, protocolLabel: byte, selector: Selector)
    | ShortTransportDescriptor(bytes: seq<byte>)
    | LocationDescriptor(path: string)
    | UsageDescriptor(bytes: seq<byte>)
    | BoundaryDescriptor(boundaries: seq<string>)
    | RatingDescriptor(ratings: seq<Rating>, extra: seq<byte>)
    | GraphicsDescriptor(bytes: seq<byte>)
    | UnknownDescriptor(tag: byte, bytes: seq<byte>)

  // ---------------------------------------------------------------- wire form

  function EncodeString(s: string): seq<byte>
    requires IsByteText(s) && |s| < 0x100
  {
    [|s|] + Codes(s)
  }

  predicate IsShortText(s: string) {
    IsByteText(s) && |s| < 0x100
  }

  predicate AreShortTexts(ss: seq<string>) {
    forall i | 0 <= i < |ss| :: IsShortText(ss[i])
  }

  function EncodeStrings(ss: seq<string>): seq<byte>
    requires AreShortTexts(ss)
  {
    if ss == [] then [] else EncodeString(ss[0]) + EncodeStrings(ss[1..])
  }

  function EncodeProfile(p: Profile): seq<byte> {
    Be16(p.id) + [p.major, p.minor, p.micro]
  }

  function EncodeProfiles(ps: seq<Profile>): (bytes: seq<byte>)
    ensures |bytes| == 5 * |ps|
  {
    if ps == [] then [] else EncodeProfile(ps[0]) + EncodeProfiles(ps[1..])
  }

  function EncodeTriplet(t: Triplet): seq<byte> {
    Be16(t.originalNetworkId) + Be16(t.transportStreamId) + Be16(t.serviceId)
  }

  predicate SelectorFits(protocolId: uint16, s: Selector) {
    match s
    case NoSelector => true
    case Carousel(remote, reserved, dvb, _) =>
      protocolId == PROTOCOL_CAROUSEL && reserved < 0x80 && (!remote ==> dvb == Triplet(0, 0, 0))
    case Url(baseUrl, extensionUrls) =>
      protocolId == PROTOCOL_HTTP && IsShortText(baseUrl) && |extensionUrls| < 0x100 && AreShortTexts(extensionUrls)
    case OtherSelector(bytes) => protocolId != PROTOCOL_CAROUSEL && protocolId != PROTOCOL_HTTP
  }

  function EncodeSelector(protocolId: uint16, s: Selector): seq<byte>
    requires SelectorFits(protocolId, s)
  {
    match s
    case NoSelector => []
    case Carousel(remote, reserved, dvb, componentTag) =>
      [(if remote then 0x80 else 0) + reserved] + ((if remote then EncodeTriplet(dvb) else []) + [componentTag])
    case Url(baseUrl, extensionUrls) =>
      EncodeString(baseUrl) + ([|extensionUrls|] + EncodeStrings(extensionUrls))
    case OtherSelector(bytes) => bytes
  }

  predicate IsRating(r: Rating) {
    r.scheme == "dvb-si" && |r.region| == 3 && IsByteText(r.region)
  }

  /** The wire carries the age minus 3, modulo 256 as the parser adds it back in a `uint8_t`. */
  function EncodeRating(r: Rating): seq<byte>
    requires IsRating(r)
  {
    Codes(r.region) + [U8(r.value as int - 3)]
  }

  predicate AreRatings(rs: seq<Rating>) {
    forall i | 0 <= i < |rs| :: IsRating(rs[i])
  }

  function EncodeRatings(rs: seq<Rating>): (bytes: seq<byte>)
    requires AreRatings(rs)
    ensures |bytes| == 4 * |rs|
  {
    if rs == [] then [] else EncodeRating(rs[0]) + EncodeRatings(rs[1..])
  }

  predicate IsName(n: LangString) {
    |n.lang| == 3 && IsByteText(n.text) && 0 < |n.text| < 252
  }

  predicate AreNames(ns: seq<LangString>) {
    forall i | 0 <= i < |ns| :: IsName(ns[i])
  }

  function EncodeNames(ns: seq<LangString>): seq<byte>
    requires AreNames(ns)
  {
    if ns == [] then [] else
      assert IsName(ns[0]);
      ns[0].lang + (EncodeString(ns[0].text) + EncodeNames(ns[1..]))
  }

  function Tag(d: Descriptor): byte {
    match d
    case ApplicationDescriptor(_, _, _, _, _, _) => TAG_APP
    case NameDescriptor(_) => TAG_NAME
    case TransportDescriptor(_, _, _) => TAG_TRANSPORT
    case ShortTransportDescriptor(_) => TAG_TRANSPORT
    case LocationDescriptor(_) => TAG_LOCATION
    case UsageDescriptor(_) => TAG_USAGE
    case BoundaryDescriptor(_) => TAG_BOUNDARY
    case RatingDescriptor(_, _) => TAG_RATING
    case GraphicsDescriptor(_) => TAG_GRAPHICS
    case UnknownDescriptor(tag, _) => tag
  }

  /** What can be printed. A name descriptor holds at most one name: see `AitPrinting.NamesAreReadExactlyWhen`. */
  predicate Printable(d: Descriptor) {
    match d
    case ApplicationDescriptor(profiles, _, visibility, reserved, _, labels) =>
      5 * |profiles| < 0x100 && visibility < 4 && reserved < 0x20
    case NameDescriptor(names) => |names| <= 1 && AreNames(names)
    case TransportDescriptor(protocolId, _, selector) => SelectorFits(protocolId, selector)
    case ShortTransportDescriptor(bytes) => |bytes| < 3
    case LocationDescriptor(path) => IsShortText(path)
    case UsageDescriptor(_) => true
    case BoundaryDescriptor(boundaries) => |boundaries| < 0x100 && AreShortTexts(boundaries)
    case RatingDescriptor(ratings, extra) => ratings != [] && AreRatings(ratings) && |extra| < 4
    case GraphicsDescriptor(_) => true
    case UnknownDescriptor(tag, _) => tag !in KNOWN_TAGS
  }

  function FlagByte(serviceBound: bool, visibility: byte, reserved: byte): byte
    requires visibility < 4 && reserved < 0x20
  {
    (if serviceBound then 0x80 else 0) + visibility * 0x20 + reserved
  }

  function Payload(d: Descriptor): seq<byte>
    requires Printable(d)
  {
    match d
    case ApplicationDescriptor(profiles, serviceBound, visibility, reserved, priority, labels) =>
      [5 * |profiles|]
      + (EncodeProfiles(profiles) + ([FlagByte(serviceBound, visibility, reserved), priority] + labels))
    case NameDescriptor(names) => EncodeNames(names)
    case TransportDescriptor(protocolId, protocolLabel, selector) =>
      Be16(protocolId) + ([protocolLabel] + EncodeSelector(protocolId, selector))
    case ShortTransportDescriptor(bytes) => bytes
    case LocationDescriptor(path) => Codes(path)
    case UsageDescriptor(bytes) => bytes
    case BoundaryDescriptor(boundaries) => [|boundaries|] + EncodeStrings(boundaries)
    case RatingDescriptor(ratings, extra) => EncodeRatings(ratings) + extra
    case GraphicsDescriptor(bytes) => bytes
    case UnknownDescriptor(_, bytes) => bytes
  }

  predicate WellFormed(d: Descriptor) {
    Printable(d) && |Payload(d)| < 0x100
  }

  function Encode(d: Descriptor): seq<byte>
    requires WellFormed(d)
  {
    [Tag(d), |Payload(d)|] + Payload(d)
  }

  predicate AllWellFormed(ds: seq<Descriptor>) {
    forall i | 0 <= i < |ds| :: WellFormed(ds[i])
  }

  function EncodeAll(ds: seq<Descriptor>): seq<byte>
    requires AllWellFormed(ds)
  {
    if ds == [] then [] else Encode(ds[0]) + EncodeAll(ds[1..])
  }

  // ---------------------------------------------------------------- meaning

  /** The transport slots are filled left to right and a slot counts as free while its protocol id is 0. */
  predicate HasSlot(slots: seq<Transport>, protocolId: uint16) {
    protocolId != 0 && |slots| < MAX_PROTOCOLS
    && forall i | 0 <= i < |slots| :: slots[i].protocolId != protocolId
  }

  predicate AreSlots(slots: seq<Transport>) {
    |slots| <= MAX_PROTOCOLS && forall i | 0 <= i < |slots| :: slots[i].protocolId != 0
  }

  function TransportOf(protocolId: uint16, protocolLabel: byte, s: Selector): Transport {
    var blank := Transport(protocolId, protocolLabel, false, Triplet(0, 0, 0), 0, "", [], false);
    match s
    case Carousel(remote, _, dvb, componentTag) => blank.(remote := remote, dvb := dvb, componentTag := componentTag)
    case Url(baseUrl, extensionUrls) => blank.(baseUrl := baseUrl, extensionUrls := extensionUrls)
    case _ => blank
  }

  function GraphicsLine(id: byte): seq<nat> {
    if id == 4 then [1080] else if id == 5 then [2160] else if id == 6 then [4320] else []
  }

  /** The first payload byte holds flags, which the parser skips. */
  function GraphicsIds(bytes: seq<byte>): seq<byte> {
    if bytes == [] then [] else bytes[1..]
  }

  function GraphicsLines(ids: seq<byte>): seq<nat> {
    if ids == [] then [] else GraphicsLine(ids[0]) + GraphicsLines(ids[1..])
  }

  /** The parser reads the first rating and stops when at most four more bytes are left. */
  function RatingsRead(rs: seq<Rating>, extra: nat): seq<Rating>
    requires rs != [] && extra < 4
  {
    if 4 * (|rs| - 1) + extra <= 4 then [rs[0]] else [rs[0]] + RatingsRead(rs[1..], extra)
  }

  function Apply(d: Descriptor, app: App): App
    requires WellFormed(d)
  {
    match d
    case ApplicationDescriptor(profiles, serviceBound, visibility, _, priority, labels) =>
      if app.desc.visibility == 2
      then app.(desc := AppDesc(visibility, priority, serviceBound, app.desc.profiles + profiles, labels))
      else app
    case NameDescriptor(names) => if app.names == [] then app.(names := names) else app
    case TransportDescriptor(protocolId, protocolLabel, selector) =>
      app.(transports := app.transports + [TransportOf(protocolId, protocolLabel, selector)])
    case ShortTransportDescriptor(_) => app
    case LocationDescriptor(path) => if app.location == "" then app.(location := path) else app
    case UsageDescriptor(bytes) =>
      if |bytes| == 1 && app.usageType != USAGE_TELETEXT then app.(usageType := bytes[0]) else app
    case BoundaryDescriptor(boundaries) => app.(boundaries := app.boundaries + boundaries)
    case RatingDescriptor(ratings, extra) =>
      if app.ratings == [] then app.(ratings := RatingsRead(ratings, |extra|)) else app
    case GraphicsDescriptor(bytes) =>
      if app.graphics == [] then app.(graphics := [720] + GraphicsLines(GraphicsIds(bytes))) else app
    case UnknownDescriptor(_, _) => app
  }

  function ApplyAll(ds: seq<Descriptor>, app: App): App
    requires AllWellFormed(ds)
  {
    if ds == [] then app else ApplyAll(ds[1..], Apply(ds[0], app))
  }

  /** No descriptor makes the parser write past the two transport slots. */
  predicate NoOverrun(ds: seq<Descriptor>, app: App)
    requires AllWellFormed(ds)
  {
    ds == [] ||
    ((ds[0].TransportDescriptor? ==> HasSlot(app.transports, ds[0].protocolId))
     && NoOverrun(ds[1..], Apply(ds[0], app)))
  }

  // ---------------------------------------------------------------- the bytes of a printed descriptor

  lemma ApplicationPayload(d: Descriptor, tail: seq<byte>)
    requires WellFormed(d) && d.ApplicationDescriptor?
    ensures Payload(d) + tail ==
            [5 * |d.profiles|] + (EncodeProfiles(d.profiles)
            + ([FlagByte(d.serviceBound, d.visibility, d.reserved), d.priority] + (d.labels + tail)))
    ensures |Payload(d)| == 3 + 5 * |d.profiles| + |d.labels|
  {
    var a, b, c := [5 * |d.profiles|], EncodeProfiles(d.profiles),
      [FlagByte(d.serviceBound, d.visibility, d.reserved), d.priority];
    Regroup(c, d.labels, tail);
    Regroup(b, c + d.labels, tail);
    Regroup(a, b + (c + d.labels), tail);
  }

  lemma FlagBits(serviceBound: bool, visibility: byte, reserved: byte)
    requires visibility < 4 && reserved < 0x20
    ensures (FlagByte(serviceBound, visibility, reserved) / 0x80 % 2 != 0) == serviceBound
    ensures FlagByte(serviceBound, visibility, reserved) / 0x20 % 4 == visibility
  {
  }

  lemma NamePayload(name: LangString, tail: seq<byte>)
    requires IsName(name)
    ensures EncodeNames([name]) + tail == name.lang + ([|name.text|] + (Codes(name.text) + tail))
    ensures |EncodeNames([name])| == 4 + |name.text|
  {
    assert EncodeNames([name]) == name.lang + (EncodeString(name.text) + EncodeNames([]));
    Regroup(name.lang, EncodeString(name.text), tail);
    Regroup([|name.text|], Codes(name.text), tail);
  }

  lemma TransportPayload(d: Descriptor, tail: seq<byte>)
    requires WellFormed(d) && d.TransportDescriptor?
    ensures Payload(d) + tail ==
            Be16(d.protocolId) + ([d.protocolLabel] + (EncodeSelector(d.protocolId, d.selector) + tail))
    ensures |Payload(d)| == 3 + |EncodeSelector(d.protocolId, d.selector)|
  {
    var selector := EncodeSelector(d.protocolId, d.selector);
    Regroup([d.protocolLabel], selector, tail);
    Regroup(Be16(d.protocolId), [d.protocolLabel] + selector, tail);
  }

  lemma RatingShape(rs: seq<Rating>, tail: seq<byte>)
    requires AreRatings(rs) && rs != []
    ensures EncodeRatings(rs) + tail ==
            Codes(rs[0].region) + ([U8(rs[0].value as int - 3)] + (EncodeRatings(rs[1..]) + tail))
  {
    var region, value, rest := Codes(rs[0].region), [U8(rs[0].value as int - 3)], EncodeRatings(rs[1..]);
    Regroup(region + value, rest, tail);
    Regroup(region, value, rest + tail);
  }

  lemma RatingValue(v: byte)
    ensures U8(U8(v as int - 3) as int + 3) == v
  {
  }

  lemma RatingRegion(r: Rating)
    requires IsRating(r)
    ensures r.scheme == "dvb-si" && |Codes(r.region)| == 3
  {
  }

  lemma EncodeShape(ds: seq<Descriptor>, tail: seq<byte>)
    requires AllWellFormed(ds) && ds != []
    ensures EncodeAll(ds) + tail ==
            [Tag(ds[0])] + ([|Payload(ds[0])|] + (Payload(ds[0]) + (EncodeAll(ds[1..]) + tail)))
    ensures |EncodeAll(ds)| == 2 + |Payload(ds[0])| + |EncodeAll(ds[1..])|
  {
    var head, size, body, rest := [Tag(ds[0])], [|Payload(ds[0])|], Payload(ds[0]), EncodeAll(ds[1..]);
    Regroup(body, rest, tail);
    Regroup(size, body, rest + tail);
    assert Encode(ds[0]) == head + (size + body);
    Regroup(Encode(ds[0]), rest, tail);
    Regroup(head, size + body, rest + tail);
  }
}
