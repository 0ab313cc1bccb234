/** What is printed is what stands at its places: the syntax of descriptors against the layout of their bytes. */
module AitPositions {
  import opened Common
  import opened AitModel
  import opened AitLayout
  import opened AitSyntax

  lemma SameProfile(p: seq<byte>, i: nat, q: seq<byte>, j: nat)
    requires i + 5 <= |p| && j + 5 <= |q| && p[i..i + 5] == q[j..j + 5]
    ensures ProfileAt(p, i) == ProfileAt(q, j)
  {
    var x := p[i..i + 5];
    assert x[0] == q[j] && x[1] == q[j + 1] && x[2] == q[j + 2] && x[3] == q[j + 3] && x[4] == q[j + 4];
  }

  lemma {:induction false} ProfilePositions(ps: seq<Profile>, i: nat, tail: seq<byte>)
    requires i < |ps|
    ensures ProfileAt(EncodeProfiles(ps) + tail, 5 * i) == ps[i]
  {
    var head, rest := EncodeProfile(ps[0]), EncodeProfiles(ps[1..]);
    Regroup(head, rest, tail);
    var p := EncodeProfiles(ps) + tail;
    assert p == head + (rest + tail);
    if i > 0 {
      ProfilePositions(ps[1..], i - 1, tail);
      SameProfile(p, 5 * i, rest + tail, 5 * (i - 1));
    }
  }

  /** A byte, bytes of the length it gives, and the rest. */
  lemma Behind(b: seq<byte>, n: byte, text: seq<byte>, rest: seq<byte>)
    requires b == [n] + (text + rest) && |text| == n as int
    ensures |b| == 1 + n as int + |rest| && b[0] == n
    ensures b[1..1 + n as int] == text && b[1 + n as int..] == rest && b[1..] == text + rest
  {
  }

  lemma ProfileStands(p: seq<byte>, ps: seq<Profile>, i: nat, tail: seq<byte>)
    requires i < |ps| && p != [] && p[1..] == EncodeProfiles(ps) + tail
    ensures 5 + 5 * i < |p| && ProfileAt(p, 1 + 5 * i) == ps[i]
  {
    hide EncodeProfiles, ProfileAt;
    var q := EncodeProfiles(ps) + tail;
    ProfilePositions(ps, i, tail);
    OneLater(p, q, 5 * i);
    SameProfile(p, 1 + 5 * i, q, 5 * i);
  }

  lemma OneLater(p: seq<byte>, q: seq<byte>, i: nat)
    requires p != [] && p[1..] == q && i + 5 <= |q|
    ensures p[1 + i..1 + i + 5] == q[i..i + 5]
  {
  }

  /** The fields behind the length of the profiles, with `flags` for the byte of flags. */
  lemma ApplicationFields(p: seq<byte>, ps: seq<Profile>, flags: byte, priority: byte, labels: seq<byte>)
    requires 5 * |ps| < 0x100 && p == [5 * |ps|] + (EncodeProfiles(ps) + ([flags, priority] + labels))
    ensures |p| == 3 + 5 * |ps| + |labels|
    ensures p[0] == 5 * |ps| && p[1 + 5 * |ps|] == flags && p[2 + 5 * |ps|] == priority && p[3 + 5 * |ps|..] == labels
    ensures ProfilesAt(p, |ps|) == ps
  {
    hide EncodeProfiles, ProfileAt;
    var tail := [flags, priority] + labels;
    Behind(p, 5 * |ps|, EncodeProfiles(ps), tail);
    var k := 1 + 5 * |ps|;
    assert p[k..][0] == p[k] && p[k..][1] == p[k + 1] && p[k..][2..] == p[k + 2..];
    forall i | 0 <= i < |ps| ensures ProfileAt(p, 1 + 5 * i) == ps[i] {
      ProfileStands(p, ps, i, tail);
    }
  }

  lemma ApplicationPositions(d: Descriptor, before: AppDesc)
    requires WellFormed(d) && d.ApplicationDescriptor?
    ensures ApplicationAt(Payload(d), before) == Some(
              if before.visibility == 2
              then AppDesc(d.visibility, d.priority, d.serviceBound, before.profiles + d.profiles, d.labels)
              else before)
  {
    hide EncodeProfiles, ProfilesAt;
    var flags := FlagByte(d.serviceBound, d.visibility, d.reserved);
    ApplicationFields(Payload(d), d.profiles, flags, d.priority, d.labels);
    FlagBits(d.serviceBound, d.visibility, d.reserved);
  }

  lemma NamePositions(d: Descriptor, before: seq<LangString>)
    requires WellFormed(d) && d.NameDescriptor?
    ensures NameAt(Payload(d), before) == Some(if before == [] then d.names else before)
  {
    var p := Payload(d);
    if d.names != [] {
      var name := d.names[0];
      assert d.names == [name] && IsName(name);
      NamePayload(name, []);
      assert p + [] == p && Codes(name.text) + [] == Codes(name.text);
      assert p == name.lang + ([|name.text|] + Codes(name.text));
      assert p[4..4 + p[3] as int] == Codes(name.text);
    }
  }

  lemma OneMoreText(b: seq<byte>, s: string, rest: seq<byte>, n: nat)
    requires IsShortText(s) && b == [|s|] + (Codes(s) + rest) && HasTexts(rest, n)
    ensures HasTexts(b, n + 1) && Texts(b, n + 1) == [s] + Texts(rest, n)
  {
    Behind(b, |s|, Codes(s), rest);
  }

  lemma NoTexts(b: seq<byte>)
    ensures HasTexts(b, 0) && Texts(b, 0) == []
  {
  }

  lemma StringsShape(ss: seq<string>, tail: seq<byte>)
    requires AreShortTexts(ss) && ss != []
    ensures IsShortText(ss[0]) && AreShortTexts(ss[1..])
    ensures EncodeStrings(ss) + tail == [|ss[0]|] + (Codes(ss[0]) + (EncodeStrings(ss[1..]) + tail))
  {
    assert IsShortText(ss[0]);
    Regroup(EncodeString(ss[0]), EncodeStrings(ss[1..]), tail);
    Regroup([|ss[0]|], Codes(ss[0]), EncodeStrings(ss[1..]) + tail);
  }

  lemma {:induction false} TextPositions(ss: seq<string>, tail: seq<byte>)
    requires AreShortTexts(ss)
    ensures HasTexts(EncodeStrings(ss) + tail, |ss|) && Texts(EncodeStrings(ss) + tail, |ss|) == ss
  {
    hide HasTexts, Texts, EncodeString, IsShortText;
    if ss == [] {
      NoTexts(tail);
      assert EncodeStrings(ss) + tail == tail;
    } else {
      var rest := EncodeStrings(ss[1..]) + tail;
      StringsShape(ss, tail);
      TextPositions(ss[1..], tail);
      OneMoreText(EncodeStrings(ss) + tail, ss[0], rest, |ss| - 1);
    }
  }

  lemma BoundaryPositions(d: Descriptor, before: seq<string>)
    requires WellFormed(d) && d.BoundaryDescriptor?
    ensures BoundariesAt(Payload(d), before) == Some(before + d.boundaries)
  {
    hide HasTexts, Texts, EncodeStrings;
    var texts := EncodeStrings(d.boundaries);
    TextPositions(d.boundaries, []);
    assert texts + [] == texts && Payload(d)[1..] == texts;
  }

  /** The body of a descriptor in a section is its payload. */
  lemma BodyIsPayload(data: seq<byte>, d: Descriptor, tail: seq<byte>)
    requires WellFormed(d) && data == [|Payload(d)|] + (Payload(d) + tail)
    ensures Body(data) == Payload(d)
  {
    hide Payload;
    Behind(data, |Payload(d)|, Payload(d), tail);
  }

  lemma WordPositions(n: uint16, b: seq<byte>, i: nat)
    requires i + 2 <= |b| && b[i..i + 2] == Be16(n)
    ensures U16(b, i) == n
  {
    var x := b[i..i + 2];
    assert x[0] == b[i] && x[1] == b[i + 1];
  }

  lemma CarouselPositions(p: seq<byte>, blank: Transport, s: Selector)
    requires s.Carousel? && SelectorFits(PROTOCOL_CAROUSEL, s) && |p| >= 3
    requires p[3..] == EncodeSelector(PROTOCOL_CAROUSEL, s)
    ensures |p| > 3
    ensures CarouselAt(p, blank) == Some(
              if s.remote then blank.(remote := true, dvb := s.dvb, componentTag := s.componentTag)
              else blank.(componentTag := s.componentTag))
  {
    var q := p[3..];
    assert p[3] == q[0];
    if s.remote {
      assert p[4..6] == Be16(s.dvb.originalNetworkId) && p[6..8] == Be16(s.dvb.transportStreamId);
      assert p[8..10] == Be16(s.dvb.serviceId);
      WordPositions(s.dvb.originalNetworkId, p, 4);
      WordPositions(s.dvb.transportStreamId, p, 6);
      WordPositions(s.dvb.serviceId, p, 8);
      assert p[10] == q[7];
    } else {
      assert p[4] == q[1];
    }
  }

  lemma UrlPositions(p: seq<byte>, blank: Transport, s: Selector)
    requires s.Url? && SelectorFits(PROTOCOL_HTTP, s) && |p| >= 3
    requires p[3..] == EncodeSelector(PROTOCOL_HTTP, s)
    ensures |p| > 3
    ensures UrlAt(p, blank) == Some(blank.(baseUrl := s.baseUrl, extensionUrls := s.extensionUrls))
  {
    var q, n := p[3..], |s.baseUrl|;
    var urls := EncodeStrings(s.extensionUrls);
    Regroup([n], Codes(s.baseUrl), [|s.extensionUrls|] + urls);
    assert urls + [] == urls;
    TextPositions(s.extensionUrls, []);
    hide EncodeSelector, EncodeStrings, HasTexts, Texts, SelectorFits;
    Behind(q, n, Codes(s.baseUrl), [|s.extensionUrls|] + urls);
    assert p[3] == q[0] && p[4..4 + n] == q[1..1 + n] && p[4 + n..] == q[1 + n..];
    assert p[4 + n] == p[4 + n..][0] && p[5 + n..] == p[4 + n..][1..];
  }

  lemma TransportPositions(d: Descriptor, before: seq<Transport>)
    requires WellFormed(d) && d.TransportDescriptor? && HasSlot(before, d.protocolId)
    ensures TransportsAt(Payload(d), before)
            == Some(before + [TransportOf(d.protocolId, d.protocolLabel, d.selector)])
  {
    var p, selector := Payload(d), EncodeSelector(d.protocolId, d.selector);
    assert p == Be16(d.protocolId) + ([d.protocolLabel] + selector);
    WordPositions(d.protocolId, p, 0);
    assert p[2] == d.protocolLabel && p[3..] == selector;
    var blank := Transport(d.protocolId, d.protocolLabel, false, Triplet(0, 0, 0), 0, "", [], false);
    match d.selector
    case Carousel(_, _, _, _) => CarouselPositions(p, blank, d.selector);
    case Url(_, _) => UrlPositions(p, blank, d.selector);
    case _ => OtherPositions(p, d);
  }

  lemma OtherPositions(p: seq<byte>, d: Descriptor)
    requires WellFormed(d) && d.TransportDescriptor? && (d.selector.NoSelector? || d.selector.OtherSelector?)
    requires |p| >= 3 && U16(p, 0) == d.protocolId && p[2] == d.protocolLabel
    requires p[3..] == EncodeSelector(d.protocolId, d.selector)
    ensures TransportAt(p) == Some(TransportOf(d.protocolId, d.protocolLabel, d.selector))
  {
    assert d.selector.NoSelector? ==> p[3..] == [];
  }

  lemma FirstRating(p: seq<byte>, r: Rating, rest: seq<byte>)
    requires IsRating(r) && p == Codes(r.region) + ([U8(r.value as int - 3)] + rest)
    ensures |p| >= 4 && p[4..] == rest && RatingAt(p, 0) == r
  {
    RatingValue(r.value);
    assert p[..3] == Codes(r.region) && p[3] == U8(r.value as int - 3);
  }

  lemma FourLater(p: seq<byte>, q: seq<byte>, i: nat)
    requires |p| >= 4 && p[4..] == q && i + 4 <= |q|
    ensures p[4 + i..4 + i + 4] == q[i..i + 4]
  {
  }

  lemma {:induction false} RatingPositions(rs: seq<Rating>, i: nat, tail: seq<byte>)
    requires AreRatings(rs) && i < |rs|
    ensures RatingAt(EncodeRatings(rs) + tail, 4 * i) == rs[i]
  {
    hide EncodeRatings, IsRating, RatingAt;
    var p, rest := EncodeRatings(rs) + tail, EncodeRatings(rs[1..]) + tail;
    RatingShape(rs, tail);
    assert IsRating(rs[0]);
    FirstRating(p, rs[0], rest);
    if i > 0 {
      RatingPositions(rs[1..], i - 1, tail);
      FourLater(p, rest, 4 * (i - 1));
      SameRating(p, 4 * i, rest, 4 * (i - 1));
    }
  }

  lemma SameRating(p: seq<byte>, i: nat, q: seq<byte>, j: nat)
    requires i + 4 <= |p| && j + 4 <= |q| && p[i..i + 4] == q[j..j + 4]
    ensures RatingAt(p, i) == RatingAt(q, j)
  {
    var x := p[i..i + 4];
    assert x[..3] == p[i..i + 3] && x[..3] == q[j..j + 3] && x[3] == p[i + 3] == q[j + 3];
  }

  /** The closed form of how many ratings are read. */
  lemma {:induction false} RatingCount(rs: seq<Rating>, extra: nat)
    requires rs != [] && extra < 4
    ensures RatingsRead(rs, extra) == rs[..if |rs| == 1 || 4 * |rs| + extra <= 8 then 1 else (4 * |rs| + extra - 1) / 4]
  {
    if 4 * (|rs| - 1) + extra > 4 {
      RatingCount(rs[1..], extra);
      var n := (4 * |rs| + extra - 1) / 4;
      assert rs[..n] == [rs[0]] + rs[1..][..n - 1];
    }
  }

  lemma RatingsPositions(d: Descriptor, before: seq<Rating>)
    requires WellFormed(d) && d.RatingDescriptor?
    ensures RatingsAt(Payload(d), before) == Some(if before == [] then RatingsRead(d.ratings, |d.extra|) else before)
  {
    var p := Payload(d);
    if before == [] {
      RatingCount(d.ratings, |d.extra|);
      var n := if |p| <= 8 then 1 else (|p| - 1) / 4;
      forall i | 0 <= i < n ensures RatingAt(p, 4 * i) == d.ratings[i] {
        RatingPositions(d.ratings, i, d.extra);
      }
      assert seq(n, i requires 0 <= i < n => RatingAt(p, 4 * i)) == d.ratings[..n];
    }
  }

  lemma {:induction false} LinePositions(ids: seq<byte>)
    ensures LinesAt(ids) == GraphicsLines(ids)
  {
    if ids != [] {
      LinePositions(ids[1..]);
    }
  }

  /** A descriptor means what its bytes say, and says it under its tag. */
  lemma DescriptorPositions(d: Descriptor, app: App)
    requires WellFormed(d) && (d.TransportDescriptor? ==> HasSlot(app.transports, d.protocolId))
    ensures DescriptorAt(Tag(d), Payload(d), app) == Some(Apply(d, app))
  {
    hide ApplicationAt, NameAt, TransportsAt, BoundariesAt, RatingsAt;
    match d
    case ApplicationDescriptor(_, _, _, _, _, _) => ApplicationPositions(d, app.desc);
    case NameDescriptor(_) => NamePositions(d, app.names);
    case TransportDescriptor(_, _, _) => TransportPositions(d, app.transports);
    case ShortTransportDescriptor(_) => ShortPositions(d, app.transports);
    case BoundaryDescriptor(_) => BoundaryPositions(d, app.boundaries);
    case RatingDescriptor(_, _) => RatingsPositions(d, app.ratings);
    case GraphicsDescriptor(bytes) => LinePositions(GraphicsIds(bytes));
    case _ =>
  }

  lemma ShortPositions(d: Descriptor, before: seq<Transport>)
    requires WellFormed(d) && d.ShortTransportDescriptor?
    ensures TransportsAt(Payload(d), before) == Some(before)
  {
  }

  lemma {:induction false} DescriptorsPositions(ds: seq<Descriptor>, app: App)
    requires AllWellFormed(ds) && NoOverrun(ds, app)
    ensures DescriptorsAt(EncodeAll(ds), app) == Some(ApplyAll(ds, app))
  {
    if ds != [] {
      hide WellFormed, Payload, Tag, Apply, DescriptorAt, HasSlot;
      var d, b := ds[0], EncodeAll(ds);
      EncodeShape(ds, []);
      assert b + [] == b && EncodeAll(ds[1..]) + [] == EncodeAll(ds[1..]);
      assert b == [Tag(d)] + ([|Payload(d)|] + (Payload(d) + EncodeAll(ds[1..])));
      assert b[2..2 + b[1] as int] == Payload(d) && b[2 + b[1] as int..] == EncodeAll(ds[1..]);
      DescriptorPositions(d, app);
      DescriptorsPositions(ds[1..], Apply(d, app));
    }
  }
}
