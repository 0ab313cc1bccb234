/** Printing an application entry and reading it back; where the descriptor parser loses information. */
module AitPrinting {
  import opened Common
  import opened AitModel
  import opened AitDescriptors
  import opened AitSyntax
  import opened AitSections

  // ---------------------------------------------------------------- printing

  function SelectorOf(t: Transport): Selector {
    if t.protocolId == PROTOCOL_CAROUSEL then Carousel(t.remote, 0, t.dvb, t.componentTag)
    else if t.protocolId == PROTOCOL_HTTP then Url(t.baseUrl, t.extensionUrls)
    else NoSelector
  }

  predicate IsTransport(t: Transport) {
    && t.protocolId != 0
    && SelectorFits(t.protocolId, SelectorOf(t))
    && t == TransportOf(t.protocolId, t.protocolLabel, SelectorOf(t))
  }

  function PrintTransport(t: Transport): Descriptor {
    TransportDescriptor(t.protocolId, t.protocolLabel, SelectorOf(t))
  }

  predicate IsGraphicsLine(n: nat) {
    n == 1080 || n == 2160 || n == 4320
  }

  function GraphicsId(n: nat): byte {
    if n == 1080 then 4 else if n == 2160 then 5 else 6
  }

  function PrintGraphics(lines: seq<nat>): seq<byte> {
    if lines == [] then [] else [GraphicsId(lines[0])] + PrintGraphics(lines[1..])
  }

  function Optional(present: bool, d: Descriptor): seq<Descriptor> {
    if present then [d] else []
  }

  function PrintFront(app: App): seq<Descriptor> {
    [ApplicationDescriptor(app.desc.profiles, app.desc.serviceBound, app.desc.visibility, 0, app.desc.priority,
                           app.desc.labels)]
    + Optional(app.names != [], NameDescriptor(app.names))
  }

  function PrintTransports(ts: seq<Transport>): seq<Descriptor> {
    if ts == [] then [] else [PrintTransport(ts[0])] + PrintTransports(ts[1..])
  }

  function PrintMiddle(app: App): seq<Descriptor> {
    Optional(app.location != "", LocationDescriptor(app.location))
    + Optional(app.usageType != 0, UsageDescriptor([app.usageType]))
    + Optional(app.boundaries != [], BoundaryDescriptor(app.boundaries))
  }

  function PrintBack(app: App): seq<Descriptor> {
    Optional(app.ratings != [], RatingDescriptor(app.ratings, []))
    + Optional(app.graphics != [],
               GraphicsDescriptor([0] + PrintGraphics(if app.graphics == [] then [] else app.graphics[1..])))
  }

  function Print(app: App): seq<Descriptor> {
    PrintFront(app) + PrintTransports(app.transports) + PrintMiddle(app) + PrintBack(app)
  }

  /** What a broadcast table can say about one application: nothing here comes from an XML table. */
  predicate IsBroadcastApp(app: App) {
    && app.scheme == "" && app.appUsage == ""
    && |app.names| <= 1
    && |app.transports| <= MAX_PROTOCOLS
    && (forall i | 0 <= i < |app.transports| :: IsTransport(app.transports[i]))
    && DistinctProtocols(app.transports)
    && |app.ratings| <= 1
    && (app.graphics != [] ==> app.graphics[0] == 720)
    && (forall i | 0 < i < |app.graphics| :: IsGraphicsLine(app.graphics[i]))
    && AllWellFormed(Print(app))
  }

  lemma {:induction false} GraphicsRoundTrip(lines: seq<nat>)
    requires forall i | 0 <= i < |lines| :: IsGraphicsLine(lines[i])
    ensures GraphicsLines(PrintGraphics(lines)) == lines
  {
    if lines != [] {
      GraphicsRoundTrip(lines[1..]);
      assert IsGraphicsLine(lines[0]);
      assert lines == [lines[0]] + lines[1..];
    }
  }

  lemma {:induction false} ApplyAllAppend(a: seq<Descriptor>, b: seq<Descriptor>, app: App)
    requires AllWellFormed(a + b) && AllWellFormed(a) && AllWellFormed(b)
    ensures ApplyAll(a + b, app) == ApplyAll(b, ApplyAll(a, app))
    ensures NoOverrun(a + b, app) <==> NoOverrun(a, app) && NoOverrun(b, ApplyAll(a, app))
  {
    hide Apply;
    hide WellFormed;
    if a == [] {
      assert a + b == b;
    } else {
      assert (a + b)[1..] == a[1..] + b;
      ApplyAllAppend(a[1..], b, Apply(a[0], app));
    }
  }

  lemma ApplyOptional(ds: seq<Descriptor>, app: App, present: bool, d: Descriptor)
    requires AllWellFormed(ds + Optional(present, d)) && AllWellFormed(ds)
    requires NoOverrun(ds, app) && !d.TransportDescriptor?
    ensures present ==> WellFormed(d)
    ensures ApplyAll(ds + Optional(present, d), app)
            == if present then Apply(d, ApplyAll(ds, app)) else ApplyAll(ds, app)
    ensures NoOverrun(ds + Optional(present, d), app)
  {
    if present {
      assert (ds + [d])[|ds|] == d;
      ApplyAllAppend(ds, [d], app);
      assert ApplyAll([d], ApplyAll(ds, app)) == Apply(d, ApplyAll(ds, app));
      assert NoOverrun([], Apply(d, ApplyAll(ds, app)));
    } else {
      assert ds + [] == ds;
    }
  }

  lemma Prefixes(a: seq<Descriptor>, b: seq<Descriptor>)
    requires AllWellFormed(a + b)
    ensures AllWellFormed(a) && AllWellFormed(b)
  {
    forall i | 0 <= i < |a| ensures WellFormed(a[i]) {
      assert a[i] == (a + b)[i];
    }
    forall i | 0 <= i < |b| ensures WellFormed(b[i]) {
      assert b[i] == (a + b)[|a| + i];
    }
  }

  lemma FrontRecovered(app: App, entry: App)
    requires AllWellFormed(PrintFront(app)) && entry.desc == UNPARSED_DESC && entry.names == []
    ensures NoOverrun(PrintFront(app), entry)
    ensures ApplyAll(PrintFront(app), entry) == entry.(desc := app.desc, names := app.names)
  {
    var d := PrintFront(app)[0];
    Prefixes([d], Optional(app.names != [], NameDescriptor(app.names)));
    assert ApplyAll([], Apply(d, entry)) == Apply(d, entry);
    assert NoOverrun([], Apply(d, entry));
    assert [] + app.desc.profiles == app.desc.profiles;
    ApplyOptional([d], entry, app.names != [], NameDescriptor(app.names));
  }

  predicate DistinctProtocols(ts: seq<Transport>) {
    forall i, j | 0 <= i < j < |ts| :: ts[i].protocolId != ts[j].protocolId
  }

  lemma {:induction false} TransportsRecovered(ts: seq<Transport>, app: App)
    requires AllWellFormed(PrintTransports(ts))
    requires DistinctProtocols(app.transports + ts) && |app.transports + ts| <= MAX_PROTOCOLS
    requires forall i | 0 <= i < |ts| :: IsTransport(ts[i])
    ensures NoOverrun(PrintTransports(ts), app)
    ensures ApplyAll(PrintTransports(ts), app) == app.(transports := app.transports + ts)
  {
    if ts != [] {
      var t := ts[0];
      var d := PrintTransport(t);
      var all := app.transports + ts;
      assert all[|app.transports|] == t;
      forall i | 0 <= i < |app.transports| ensures app.transports[i].protocolId != t.protocolId {
        assert all[i] == app.transports[i];
      }
      Prefixes([d], PrintTransports(ts[1..]));
      assert WellFormed([d][0]);
      var next := Apply(d, app);
      assert next.transports + ts[1..] == all;
      TransportsRecovered(ts[1..], next);
    } else {
      assert app.transports + ts == app.transports;
    }
  }

  lemma MiddleRecovered(app: App, entry: App)
    requires AllWellFormed(PrintMiddle(app))
    requires entry.location == "" && entry.usageType == 0 && entry.boundaries == []
    ensures NoOverrun(PrintMiddle(app), entry)
    ensures ApplyAll(PrintMiddle(app), entry)
            == entry.(location := app.location, usageType := app.usageType, boundaries := app.boundaries)
  {
    hide WellFormed;
    var l, u, b := LocationDescriptor(app.location), UsageDescriptor([app.usageType]),
      BoundaryDescriptor(app.boundaries);
    var s1 := Optional(app.location != "", l);
    var s2 := s1 + Optional(app.usageType != 0, u);
    Prefixes(s2, Optional(app.boundaries != [], b));
    Prefixes(s1, Optional(app.usageType != 0, u));
    assert [] + s1 == s1;
    ApplyOptional([], entry, app.location != "", l);
    ApplyOptional(s1, entry, app.usageType != 0, u);
    ApplyOptional(s2, entry, app.boundaries != [], b);
    assert [] + app.boundaries == app.boundaries;
  }

  lemma GraphicsRecovered(graphics: seq<nat>)
    requires graphics != [] && graphics[0] == 720
    requires forall i | 0 < i < |graphics| :: IsGraphicsLine(graphics[i])
    ensures [720] + GraphicsLines(GraphicsIds([0] + PrintGraphics(graphics[1..]))) == graphics
  {
    GraphicsRoundTrip(graphics[1..]);
    assert GraphicsIds([0] + PrintGraphics(graphics[1..])) == PrintGraphics(graphics[1..]);
    assert graphics == [720] + graphics[1..];
  }

  lemma RatingRecovered(ratings: seq<Rating>)
    requires |ratings| <= 1
    ensures ratings != [] ==> RatingsRead(ratings, 0) == ratings
  {
  }

  lemma BackRecovered(app: App, entry: App)
    requires |app.ratings| <= 1 && AllWellFormed(PrintBack(app))
    requires app.graphics != [] ==> app.graphics[0] == 720
    requires forall i | 0 < i < |app.graphics| :: IsGraphicsLine(app.graphics[i])
    requires entry.ratings == [] && entry.graphics == []
    ensures NoOverrun(PrintBack(app), entry)
    ensures ApplyAll(PrintBack(app), entry) == entry.(ratings := app.ratings, graphics := app.graphics)
  {
    hide WellFormed, PrintGraphics, GraphicsLines;
    var lines := if app.graphics == [] then [] else app.graphics[1..];
    var r, g := RatingDescriptor(app.ratings, []), GraphicsDescriptor([0] + PrintGraphics(lines));
    var s1 := Optional(app.ratings != [], r);
    Prefixes(s1, Optional(app.graphics != [], g));
    assert [] + s1 == s1;
    ApplyOptional([], entry, app.ratings != [], r);
    ApplyOptional(s1, entry, app.graphics != [], g);
    RatingRecovered(app.ratings);
    if app.graphics != [] {
      GraphicsRecovered(app.graphics);
    }
  }

  /** The parser's meaning function undoes the printer. */
  lemma PrintedAppIsRecovered(app: App)
    requires IsBroadcastApp(app)
    ensures NoOverrun(Print(app), NewApp(app.orgId, app.appId, app.controlCode))
    ensures ApplyAll(Print(app), NewApp(app.orgId, app.appId, app.controlCode)) == app
  {
    var entry := NewApp(app.orgId, app.appId, app.controlCode);
    var s1 := PrintFront(app);
    var s2 := s1 + PrintTransports(app.transports);
    var s3 := s2 + PrintMiddle(app);
    Prefixes(s3, PrintBack(app));
    Prefixes(s2, PrintMiddle(app));
    Prefixes(s1, PrintTransports(app.transports));
    FrontRecovered(app, entry);
    var a1 := ApplyAll(s1, entry);
    assert [] + app.transports == app.transports;
    TransportsRecovered(app.transports, a1);
    ApplyAllAppend(s1, PrintTransports(app.transports), entry);
    var a2 := ApplyAll(s2, entry);
    MiddleRecovered(app, a2);
    ApplyAllAppend(s2, PrintMiddle(app), entry);
    var a3 := ApplyAll(s3, entry);
    BackRecovered(app, a3);
    ApplyAllAppend(s3, PrintBack(app), entry);
  }

  function PrintEntries(apps: seq<App>): seq<Entry> {
    seq(|apps|, i requires 0 <= i < |apps| =>
      Entry(apps[i].orgId, apps[i].appId, apps[i].controlCode, 0, Print(apps[i])))
  }

  /**
   * Parse of print: a section printed from a list of applications, received when no table of its version is
   * under way, leaves exactly those applications in the table. `Ait.ParseSection` computes `AddSection`.
   */
  lemma PrintedSectionIsRecovered(partial: Option<Table>, s: Section, apps: seq<App>)
    requires IsSection(s) && |apps| <= MAX_APPS && Base(partial, s).None?
    requires s.entries == PrintEntries(apps)
    requires forall i | 0 <= i < |apps| :: IsBroadcastApp(apps[i])
    ensures CanAdd(partial, s) && AddSection(partial, s).apps == apps
  {
    forall i | 0 <= i < |apps| ensures EntryApps(s.entries)[i] == apps[i] {
      assert IsEntry(s.entries[i]);
      PrintedAppIsRecovered(apps[i]);
    }
  }

  // ---------------------------------------------------------------- what the parser loses

  /** The protocol ids of the transport descriptors of an application, in order. */
  function ProtocolIds(ds: seq<Descriptor>): seq<uint16> {
    if ds == [] then []
    else (if ds[0].TransportDescriptor? then [ds[0].protocolId] else []) + ProtocolIds(ds[1..])
  }

  function SlotIds(slots: seq<Transport>): seq<uint16> {
    seq(|slots|, i requires 0 <= i < |slots| => slots[i].protocolId)
  }

  /** All ids fit into the slots: at most two, none of them 0, none repeated. */
  predicate IdsFit(used: seq<uint16>, ids: seq<uint16>) {
    var all := used + ids;
    ids == [] || (|all| <= MAX_PROTOCOLS
                  && forall i | |used| <= i < |all| :: all[i] != 0 && forall j | 0 <= j < i :: all[j] != all[i])
  }

  /**
   * The parser stays within the two transport slots exactly when the transport descriptors of an application
   * name at most two different non-zero protocols.
   */
  lemma {:induction false} StaysInSlotsExactlyWhen(ds: seq<Descriptor>, app: App)
    requires AllWellFormed(ds) && AreSlots(app.transports)
    ensures NoOverrun(ds, app) <==> IdsFit(SlotIds(app.transports), ProtocolIds(ds))
  {
    hide Apply, WellFormed, IdsFit, HasSlot;
    if ds != [] {
      var next, used, rest := Apply(ds[0], app), SlotIds(app.transports), ProtocolIds(ds[1..]);
      SlotsAfter(ds[0], app);
      if ds[0].TransportDescriptor? {
        var id := ds[0].protocolId;
        SlotExactlyWhen(app.transports, id);
        IdsFitStep(used, id, rest);
        if HasSlot(app.transports, id) {
          StaysInSlotsExactlyWhen(ds[1..], next);
        }
      } else {
        StaysInSlotsExactlyWhen(ds[1..], next);
        assert [] + rest == rest;
      }
    } else {
      NoIdsFit(SlotIds(app.transports));
    }
  }

  lemma NoIdsFit(used: seq<uint16>)
    ensures IdsFit(used, [])
  {
  }

  lemma SlotsAfter(d: Descriptor, app: App)
    requires WellFormed(d) && AreSlots(app.transports)
    ensures
      var slots := Apply(d, app).transports;
      if d.TransportDescriptor? then
        && SlotIds(slots) == SlotIds(app.transports) + [d.protocolId]
        && (HasSlot(app.transports, d.protocolId) ==> AreSlots(slots))
      else slots == app.transports
  {
  }

  lemma SlotExactlyWhen(slots: seq<Transport>, id: uint16)
    ensures HasSlot(slots, id) <==> IdsFit(SlotIds(slots), [id])
  {
    var used := SlotIds(slots);
    var all := used + [id];
    if HasSlot(slots, id) {
      forall j | 0 <= j < |used| ensures all[j] != id {
        assert all[j] == slots[j].protocolId;
      }
    }
    if IdsFit(used, [id]) {
      assert all[|used|] == id;
      forall j | 0 <= j < |slots| ensures slots[j].protocolId != id {
        assert all[j] == slots[j].protocolId;
      }
    }
  }

  lemma IdsFitStep(used: seq<uint16>, id: uint16, rest: seq<uint16>)
    ensures IdsFit(used, [id] + rest) <==> IdsFit(used, [id]) && IdsFit(used + [id], rest)
  {
    var all := used + [id] + rest;
    assert used + ([id] + rest) == all;
    assert all[|used|] == id == (used + [id])[|used|];
    if IdsFit(used, [id] + rest) {
      forall j | 0 <= j < |used| ensures (used + [id])[j] != id {
        assert all[j] == (used + [id])[j];
      }
    }
    if IdsFit(used, [id]) && IdsFit(used + [id], rest) {
      forall i | |used| <= i < |all| ensures all[i] != 0 && forall j | 0 <= j < i :: all[j] != all[i] {
        if i == |used| {
          forall j | 0 <= j < i ensures all[j] != all[i] {
            assert all[j] == (used + [id])[j];
          }
        }
      }
    }
  }

  /**
   * A rating descriptor is read in full exactly when it holds one rating or ends in extra bytes: otherwise the last of
   * several ratings is dropped.
   */
  lemma {:induction false} RatingsReadExactlyWhen(rs: seq<Rating>, extra: nat)
    requires rs != [] && extra < 4
    ensures RatingsRead(rs, extra) == rs <==> |rs| == 1 || extra > 0
    ensures |rs| > 1 && extra == 0 ==> RatingsRead(rs, extra) == rs[..|rs| - 1]
  {
    if |rs| > 1 && 4 * (|rs| - 1) + extra > 4 {
      RatingsReadExactlyWhen(rs[1..], extra);
      assert rs == [rs[0]] + rs[1..];
      assert rs[..|rs| - 1] == [rs[0]] + rs[1..][..|rs[1..]| - 1];
    } else if |rs| == 2 {
      assert rs[..1] == [rs[0]];
    }
  }

  /** The step over a known entry lands on the next one exactly when two descriptor bytes happen to make up for it. */
  lemma KnownEntryIsSteppedOverExactlyWhen(e: Entry, tail: seq<byte>)
    requires IsEntry(e) && |EncodeEntry(e) + tail| >= 15
    ensures
      var ds := EncodeAll(e.descriptors);
      KnownEntryStep(EncodeEntry(e) + tail) == |EncodeEntry(e)|
      <==> |ds| >= 6 && Read12(ds[4], ds[5]) == |ds| - 6
  {
    var p, ds := EncodeEntry(e) + tail, EncodeAll(e.descriptors);
    if |ds| >= 6 {
      assert p[13] == ds[4] && p[14] == ds[5];
    }
  }

  predicate HasNoNul(bytes: seq<byte>) {
    forall i | 0 <= i < |bytes| :: bytes[i] != 0
  }

  /** The names of `ns` stand in `q` with their headers only four bytes apart, as the name loop looks for them. */
  predicate Overlapping(q: seq<byte>, ns: seq<LangString>)
    requires AreNames(ns)
    decreases |ns|
  {
    ns == [] || (EncodeNames(ns[..1]) <= q && |q| >= 4 && Overlapping(q[4..], ns[1..]))
  }

  /** None of the first `n` headers the name loop looks for in `q` is of an empty name. */
  ghost predicate HeadersAreNamed(q: seq<byte>, n: nat) {
    forall i: nat | i < n && 4 * i + 3 < |q| :: q[4 * i + 3] != 0
  }

  lemma NameBytes(b: LangString)
    requires IsName(b)
    ensures EncodeNames([b]) == b.lang + ([|b.text|] + Codes(b.text))
  {
    NamePayload(b, []);
    assert EncodeNames([b]) + [] == EncodeNames([b]) && Codes(b.text) + [] == Codes(b.text);
  }

  /** The first name read from `q` is `b` exactly when `q` starts with it. */
  lemma FirstNameExactlyWhen(q: seq<byte>, b: LangString)
    requires IsName(b) && |q| >= 4 && |q| >= 4 + q[3] as int
    ensures LangString(q[..3], Text(q[4..4 + q[3] as int])) == b <==> EncodeNames([b]) <= q
  {
    NameBytes(b);
    var bytes := EncodeNames([b]);
    if LangString(q[..3], Text(q[4..4 + q[3] as int])) == b {
      assert Codes(b.text) == q[4..4 + q[3] as int];
      assert q[..|bytes|] == bytes;
    }
    if bytes <= q {
      assert bytes[3] == q[3] && q[..3] == bytes[..3] == b.lang;
      assert q[4..4 + q[3] as int] == bytes[4..] == Codes(b.text);
    }
  }

  lemma SplitNames(ns: seq<LangString>)
    requires AreNames(ns) && ns != []
    ensures IsName(ns[0]) && AreNames(ns[1..]) && ns[..1] == [ns[0]]
    ensures EncodeNames(ns) == ns[0].lang + (EncodeString(ns[0].text) + EncodeNames(ns[1..]))
    ensures |EncodeNames(ns)| == 4 + |ns[0].text| + |EncodeNames(ns[1..])|
  {
  }

  lemma NamedTail(q: seq<byte>, n: nat)
    requires n > 0 && HeadersAreNamed(q, n)
    ensures |q| >= 4 ==> q[3] != 0 && HeadersAreNamed(q[4..], n - 1)
  {
    if |q| >= 4 {
      assert q[4 * 0 + 3] != 0;
      forall i: nat | i < n - 1 && 4 * i + 3 < |q[4..]| ensures q[4..][4 * i + 3] != 0 {
        assert q[4 * (i + 1) + 3] != 0;
      }
    }
  }

  lemma {:induction false} NextNamesAreReadExactlyWhen(q: seq<byte>, ns: seq<LangString>)
    requires AreNames(ns) && |EncodeNames(ns)| < 0x100 && HeadersAreNamed(q, |ns|)
    ensures NamesRead(q, |EncodeNames(ns)|) == Some(ns) <==> Overlapping(q, ns)
    decreases |ns|
  {
    hide EncodeNames, HeadersAreNamed;
    if ns == [] {
      NoNames();
    } else {
      NamedTail(q, |ns|);
      SplitNames(ns);
      LongEnough(q, ns[0]);
      if |q| >= 4 && |q| >= 4 + q[3] as int {
        FirstNameExactlyWhen(q, ns[0]);
        if EncodeNames([ns[0]]) <= q {
          NextNamesAreReadExactlyWhen(q[4..], ns[1..]);
          ConsExactlyWhen(ns[0], NamesRead(q[4..], |EncodeNames(ns[1..])|), ns);
        }
      }
    }
  }

  lemma NoNames()
    ensures EncodeNames([]) == []
  {
  }

  lemma LongEnough(q: seq<byte>, b: LangString)
    requires IsName(b)
    ensures EncodeNames([b]) <= q ==> |q| >= 4 + |b.text| && q[3] == |b.text|
  {
    NameBytes(b);
    if EncodeNames([b]) <= q {
      assert q[3] == EncodeNames([b])[3];
    }
  }

  /**
   * A list of names is read back exactly when the bytes right after the first header hold the other names with their
   * headers only four bytes apart: for one name always, for more of them by coincidence.
   */
  lemma NamesAreReadExactlyWhen(ns: seq<LangString>, tail: seq<byte>)
    requires AreNames(ns) && ns != [] && |EncodeNames(ns)| < 0x100
    requires HasNoNul(Codes(ns[0].text) + EncodeNames(ns[1..]))
    ensures
      NamesRead(EncodeNames(ns) + tail, |EncodeNames(ns)|) == Some(ns)
      <==> Overlapping(Codes(ns[0].text) + (EncodeNames(ns[1..]) + tail), ns[1..])
  {
    hide NamesRead, EncodeNames, Overlapping;
    var a, rest := ns[0], EncodeNames(ns[1..]);
    var q := Codes(a.text) + (rest + tail);
    SplitNames(ns);
    FirstHeader(ns, tail);
    HeaderIsRead(EncodeNames(ns) + tail, a.lang, |a.text|, q, |EncodeNames(ns)|);
    Cut(q, Codes(a.text), rest + tail);
    NamesAreLong(ns[1..]);
    NoNulHeaders(Codes(a.text) + rest, q, |ns[1..]|);
    NextNamesAreReadExactlyWhen(q, ns[1..]);
    ConsExactlyWhen(a, NamesRead(q, |rest|), ns);
  }

  lemma NoNulHeaders(known: seq<byte>, q: seq<byte>, n: nat)
    requires HasNoNul(known) && known <= q && 4 * n <= |known|
    ensures HeadersAreNamed(q, n)
  {
    forall i: nat | i < n ensures q[4 * i + 3] != 0 {
      assert q[4 * i + 3] == known[4 * i + 3];
    }
  }

  lemma ConsExactlyWhen(a: LangString, found: Option<seq<LangString>>, ns: seq<LangString>)
    requires ns != [] && ns[0] == a
    ensures found.Some? ==> ([a] + found.value == ns <==> found.value == ns[1..])
  {
    assert ns == [a] + ns[1..];
    if found.Some? && [a] + found.value == ns {
      assert found.value == ([a] + found.value)[1..];
    }
  }

  lemma FirstHeader(ns: seq<LangString>, tail: seq<byte>)
    requires AreNames(ns) && ns != []
    ensures EncodeNames(ns) + tail
            == ns[0].lang + ([|ns[0].text|] + (Codes(ns[0].text) + (EncodeNames(ns[1..]) + tail)))
  {
    var a, rest := ns[0], EncodeNames(ns[1..]);
    Regroup(a.lang, EncodeString(a.text) + rest, tail);
    Regroup(EncodeString(a.text), rest, tail);
    Regroup([|a.text|], Codes(a.text), rest + tail);
  }

  lemma {:induction false} NamesAreLong(ns: seq<LangString>)
    requires AreNames(ns)
    ensures |EncodeNames(ns)| >= 4 * |ns|
    decreases |ns|
  {
    if ns != [] {
      SplitNames(ns);
      NamesAreLong(ns[1..]);
    }
  }
}
