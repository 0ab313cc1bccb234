/**
 * The descriptor loop of one application.
 *
 * The methods walk the bytes as the parser does; a pointer into the section is the sequence of the bytes from it to
 * the end of the buffer. Each method takes the printed syntax as a ghost argument and is proved to recover it
 * whatever bytes follow, and to compute what `AitLayout` reads at fixed places of the bytes.
 */
module AitDescriptors {
  import opened Common
  import opened AitModel
  import opened AitLayout
  import opened AitPositions
  import opened AitSyntax

  // ---------------------------------------------------------------- the parser

  method ParseProfiles(data: seq<byte>, size: byte, ghost ps: seq<Profile>, ghost tail: seq<byte>)
    returns (r: seq<Profile>)
    requires size == 5 * |ps| && data == EncodeProfiles(ps) + tail
    ensures r == ps
  {
    r := [];
    var p := data;
    var profileLen := size;
    ghost var rest := ps;
    while profileLen >= 5
      invariant profileLen == 5 * |rest|
      invariant p == EncodeProfiles(rest) + tail
      invariant r + rest == ps
    {
      ghost var after := EncodeProfiles(rest[1..]) + tail;
      Regroup(EncodeProfile(rest[0]), EncodeProfiles(rest[1..]), tail);
      Cut(p, EncodeProfile(rest[0]), after);
      r := r + [Profile(Word(p[0], p[1]), p[2], p[3], p[4])];
      p := p[5..];
      profileLen := U8(profileLen - 5);
      rest := rest[1..];
    }
  }

  /** The flags, the priority and the labels, which fill the rest of the descriptor. */
  method ParseFlags(data: seq<byte>, descLen: byte, profiles: seq<Profile>, ghost d: AppDesc, ghost flags: byte,
                    ghost tail: seq<byte>)
    returns (r: AppDesc)
    requires descLen == 2 + |d.labels| && data == [flags, d.priority] + (d.labels + tail)
    requires (flags / 0x80 % 2 != 0) == d.serviceBound && flags / 0x20 % 4 == d.visibility
    ensures r == d.(profiles := profiles)
  {
    Cut(data, [flags, d.priority], d.labels + tail);
    assert data[0] == flags && data[1] == d.priority;
    Cut(data[2..], d.labels, tail);
    r := AppDesc(data[0] / 0x20 % 4, data[1], data[0] / 0x80 % 2 != 0, profiles, data[2..][..descLen - 2]);
  }

  /** The fields after the descriptor length; `size` is that length. */
  method ParseAppFields(data: seq<byte>, size: byte, known: seq<Profile>, ghost d: AppDesc, ghost flags: byte,
                        ghost tail: seq<byte>)
    returns (r: AppDesc)
    requires 5 * |d.profiles| < 0x100 && size == 3 + 5 * |d.profiles| + |d.labels|
    requires (flags / 0x80 % 2 != 0) == d.serviceBound && flags / 0x20 % 4 == d.visibility
    requires data == [5 * |d.profiles|] + (EncodeProfiles(d.profiles) + ([flags, d.priority] + (d.labels + tail)))
    ensures r == d.(profiles := known + d.profiles)
  {
    ghost var afterProfiles := [flags, d.priority] + (d.labels + tail);
    Head(data, 5 * |d.profiles|, EncodeProfiles(d.profiles) + afterProfiles);
    var descLen := U8(size as int - 1);
    var p := data[1..];
    var profiles := ParseProfiles(p, data[0], d.profiles, afterProfiles);
    Cut(p, EncodeProfiles(d.profiles), afterProfiles);
    p := p[5 * |profiles|..];
    descLen := U8(descLen as int - 5 * |profiles|);
    r := ParseFlags(p, descLen, known + profiles, d, flags, tail);
  }

  method ParseAppDesc(data: seq<byte>, desc: AppDesc, ghost d: Descriptor, ghost tail: seq<byte>) returns (r: AppDesc)
    requires WellFormed(d) && d.ApplicationDescriptor?
    requires data == [|Payload(d)|] + (Payload(d) + tail)
    ensures r == if desc.visibility == 2
                 then AppDesc(d.visibility, d.priority, d.serviceBound, desc.profiles + d.profiles, d.labels)
                 else desc
    ensures ApplicationAt(Body(data), desc) == Some(r)
  {
    BodyIsPayload(data, d, tail);
    ApplicationPositions(d, desc);
    r := desc;
    if desc.visibility == 2 {
      ApplicationPayload(d, tail);
      FlagBits(d.serviceBound, d.visibility, d.reserved);
      Head(data, |Payload(d)|, Payload(d) + tail);
      r := ParseAppFields(data[1..], data[0], desc.profiles,
                          AppDesc(d.visibility, d.priority, d.serviceBound, d.profiles, d.labels),
                          FlagByte(d.serviceBound, d.visibility, d.reserved), tail);
    }
  }

  /**
   * What the parser's name loop reads from `data`, which starts after the descriptor length. It steps over
   * each four-byte header but not over the text behind it, so a second header is looked for inside the
   * first text. `None` means that it would read past the end of the section.
   */
  function NamesRead(data: seq<byte>, descLen: byte): Option<seq<LangString>> {
    if descLen <= 4 then Some([])
    else if |data| < 4 || |data| < 4 + data[3] as int then None
    else
      var rest := NamesRead(data[4..], U8(descLen as int - data[3] as int - 4));
      if rest.None? || data[3] == 0 then rest
      else Some([LangString(data[..3], Text(data[4..4 + data[3] as int]))] + rest.value)
  }

  method ReadNames(data: seq<byte>, size: byte) returns (r: seq<LangString>)
    requires NamesRead(data, size).Some?
    ensures r == NamesRead(data, size).value
  {
    r := [];
    var p := data;
    var descLen := size;
    while descLen > 4
      invariant NamesRead(p, descLen).Some?
      invariant r + NamesRead(p, descLen).value == NamesRead(data, size).value
      decreases |p|
    {
      ghost var before := p;
      var lang := p[..3];
      var nameLen := p[3];
      descLen := U8(descLen as int - nameLen as int - 4);
      p := p[4..];
      if nameLen > 0 {
        assert before[4..4 + nameLen as int] == p[..nameLen];
        Regroup(r, [LangString(lang, Text(p[..nameLen]))], NamesRead(p, descLen).value);
        r := r + [LangString(lang, Text(p[..nameLen]))];
      }
    }
  }

  /** One turn of the name loop on a header with a text. */
  lemma HeaderIsRead(p: seq<byte>, lang: seq<byte>, len: byte, q: seq<byte>, descLen: byte)
    requires p == lang + ([len] + q) && |lang| == 3 && 0 < len <= |q| && descLen > 4
    ensures
      var rest := NamesRead(q, U8(descLen as int - len as int - 4));
      NamesRead(p, descLen) == if rest.None? then None else Some([LangString(lang, Text(q[..len]))] + rest.value)
  {
    Cut(p, lang, [len] + q);
    Head(p[3..], len, q);
    assert p[4..] == q && p[3] == len && p[4..4 + len as int] == q[..len];
  }

  lemma OneNameIsRead(name: LangString, tail: seq<byte>)
    requires IsName(name)
    ensures NamesRead(EncodeNames([name]) + tail, 4 + |name.text|) == Some([name])
  {
    var q := Codes(name.text) + tail;
    NamePayload(name, tail);
    HeaderIsRead(EncodeNames([name]) + tail, name.lang, |name.text|, q, 4 + |name.text|);
    Cut(q, Codes(name.text), tail);
    assert NamesRead(q, 0) == Some([]);
    assert [name] + [] == [name];
  }

  method ParseAppNameDesc(data: seq<byte>, names: seq<LangString>, ghost d: Descriptor, ghost tail: seq<byte>)
    returns (r: seq<LangString>)
    requires WellFormed(d) && d.NameDescriptor?
    requires data == [|Payload(d)|] + (Payload(d) + tail)
    ensures r == if names == [] then d.names else names
    ensures NameAt(Body(data), names) == Some(r)
  {
    BodyIsPayload(data, d, tail);
    NamePositions(d, names);
    r := names;
    if names == [] {
      if d.names != [] {
        NamePayload(d.names[0], tail);
        OneNameIsRead(d.names[0], tail);
        assert d.names == [d.names[0]];
      }
      r := ReadNames(data[1..], data[0]);
    }
  }

  method ParseStrings(data: seq<byte>, count: byte, ghost ss: seq<string>, ghost tail: seq<byte>)
    returns (r: seq<string>)
    requires AreShortTexts(ss) && count == |ss|
    requires data == EncodeStrings(ss) + tail
    ensures r == ss
  {
    r := [];
    var p := data;
    var i := 0;
    ghost var rest := ss;
    while i < count
      invariant i + |rest| == count && AreShortTexts(rest)
      invariant p == EncodeStrings(rest) + tail
      invariant r + rest == ss
    {
      ghost var after := EncodeStrings(rest[1..]) + tail;
      assert p == [|rest[0]|] + (Codes(rest[0]) + after);
      Head(p, |rest[0]|, Codes(rest[0]) + after);
      var length := p[0];
      p := p[1..];
      Cut(p, Codes(rest[0]), after);
      r := r + [Text(p[..length])];
      p := p[length..];
      rest := rest[1..];
      i := i + 1;
    }
  }

  method ParseCarousel(data: seq<byte>, blank: Transport, ghost s: Selector, ghost tail: seq<byte>)
    returns (t: Transport)
    requires SelectorFits(PROTOCOL_CAROUSEL, s) && s.Carousel?
    requires data == EncodeSelector(PROTOCOL_CAROUSEL, s) + tail
    ensures t == blank.(remote := s.remote, dvb := s.dvb, componentTag := s.componentTag)
  {
    ghost var flags := (if s.remote then 0x80 else 0) + s.reserved;
    ghost var triplet := if s.remote then EncodeTriplet(s.dvb) else [];
    assert data == [flags] + (triplet + ([s.componentTag] + tail));
    Head(data, flags, triplet + ([s.componentTag] + tail));
    t := blank.(remote := data[0] / 0x80 % 2 != 0);
    var p := data[1..];
    Cut(p, triplet, [s.componentTag] + tail);
    if t.remote {
      t := t.(dvb := Triplet(Word(p[0], p[1]), Word(p[2], p[3]), Word(p[4], p[5])));
      p := p[6..];
    } else {
      t := t.(dvb := Triplet(0, 0, 0));
    }
    t := t.(componentTag := p[0]);
  }

  method ParseUrl(data: seq<byte>, blank: Transport, ghost s: Selector, ghost tail: seq<byte>) returns (t: Transport)
    requires SelectorFits(PROTOCOL_HTTP, s) && s.Url?
    requires data == EncodeSelector(PROTOCOL_HTTP, s) + tail
    ensures t == blank.(baseUrl := s.baseUrl, extensionUrls := s.extensionUrls)
  {
    ghost var after := [|s.extensionUrls|] + (EncodeStrings(s.extensionUrls) + tail);
    assert data == [|s.baseUrl|] + (Codes(s.baseUrl) + after);
    Head(data, |s.baseUrl|, Codes(s.baseUrl) + after);
    var urlLen := data[0];
    var p := data[1..];
    Cut(p, Codes(s.baseUrl), after);
    t := blank.(baseUrl := Text(p[..urlLen]));
    p := p[urlLen..];
    Head(p, |s.extensionUrls|, EncodeStrings(s.extensionUrls) + tail);
    var urls := ParseStrings(p[1..], p[0], s.extensionUrls, tail);
    t := t.(extensionUrls := urls);
  }

  function StoredId(slots: seq<Transport>, i: nat): uint16 {
    if i < |slots| then slots[i].protocolId else 0
  }

  /**
   * The slot the parser writes a transport to. Index `MAX_PROTOCOLS` is past the end of the array: it is
   * chosen whenever the search stops before it has seen a free slot, a repeated protocol included, so a
   * descriptor is never skipped as already parsed.
   */
  method ChooseSlot(slots: seq<Transport>, protocolId: uint16) returns (index: nat)
    requires AreSlots(slots)
    ensures index == if HasSlot(slots, protocolId) then |slots| else MAX_PROTOCOLS
  {
    var freeIndex := MAX_PROTOCOLS;
    var i := 0;
    while i < MAX_PROTOCOLS
      invariant 0 <= i <= MAX_PROTOCOLS
      invariant freeIndex == if |slots| < i then |slots| else MAX_PROTOCOLS
      invariant forall k | 0 <= k < i :: protocolId != StoredId(slots, k)
    {
      var stored := StoredId(slots, i);
      if protocolId == stored {
        assert !HasSlot(slots, protocolId);
        break;
      }
      if stored == 0 && freeIndex == MAX_PROTOCOLS {
        freeIndex := i;
      }
      i := i + 1;
    }
    assert forall k | 0 <= k < |slots| :: StoredId(slots, k) == slots[k].protocolId;
    assert |slots| < i ==> protocolId != StoredId(slots, |slots|);
    if freeIndex == MAX_PROTOCOLS {
      i := MAX_PROTOCOLS;
    }
    assert i >= MAX_PROTOCOLS;
    index := freeIndex;
  }

  method ParseSelector(data: seq<byte>, descLen: byte, blank: Transport, ghost s: Selector, ghost tail: seq<byte>)
    returns (t: Transport)
    requires SelectorFits(blank.protocolId, s) && descLen == |EncodeSelector(blank.protocolId, s)|
    requires blank == TransportOf(blank.protocolId, blank.protocolLabel, NoSelector)
    requires data == EncodeSelector(blank.protocolId, s) + tail
    ensures t == TransportOf(blank.protocolId, blank.protocolLabel, s)
  {
    t := blank;
    if descLen > 0 {
      if t.protocolId == PROTOCOL_CAROUSEL {
        t := ParseCarousel(data, t, s, tail);
      } else if t.protocolId == PROTOCOL_HTTP {
        t := ParseUrl(data, t, s, tail);
      }
    }
  }

  /** The transport a descriptor of three bytes or more describes. */
  method ReadTransport(data: seq<byte>, size: byte, ghost d: Descriptor, ghost tail: seq<byte>) returns (t: Transport)
    requires WellFormed(d) && d.TransportDescriptor?
    requires size == |Payload(d)| && data == Payload(d) + tail
    ensures t == TransportOf(d.protocolId, d.protocolLabel, d.selector)
  {
    ghost var selector := EncodeSelector(d.protocolId, d.selector);
    TransportPayload(d, tail);
    assert SelectorFits(d.protocolId, d.selector);
    hide Payload, WellFormed;
    Cut(data, Be16(d.protocolId), [d.protocolLabel] + (selector + tail));
    var protocolId: uint16 := Word(data[0], data[1]);
    var p := data[2..];
    Head(p, d.protocolLabel, selector + tail);
    t := Transport(protocolId, p[0], false, Triplet(0, 0, 0), 0, "", [], false);
    t := ParseSelector(p[1..], U8(size as int - 3), t, d.selector, tail);
  }

  /** Returns the transports with the one the descriptor adds, if it is long enough to be one. */
  method ParseTransportProtocolDesc(data: seq<byte>, slots: seq<Transport>, ghost d: Descriptor, ghost tail: seq<byte>)
    returns (r: seq<Transport>)
    requires WellFormed(d) && (d.TransportDescriptor? || d.ShortTransportDescriptor?)
    requires data == [|Payload(d)|] + (Payload(d) + tail)
    requires AreSlots(slots) && (d.TransportDescriptor? ==> HasSlot(slots, d.protocolId))
    ensures r == if d.TransportDescriptor?
                 then slots + [TransportOf(d.protocolId, d.protocolLabel, d.selector)]
                 else slots
    ensures TransportsAt(Body(data), slots) == Some(r)
  {
    BodyIsPayload(data, d, tail);
    if d.TransportDescriptor? {
      TransportPositions(d, slots);
    } else {
      ShortPositions(d, slots);
    }
    r := slots;
    Head(data, |Payload(d)|, Payload(d) + tail);
    if data[0] >= 3 {
      var t := ReadTransport(data[1..], data[0], d, tail);
      var index := ChooseSlot(slots, t.protocolId);
      assert slots[..index] == slots;
      r := slots[..index] + [t];
    }
  }

  method ParseSimpleAppLocationDesc(data: seq<byte>, location: string, ghost d: Descriptor, ghost tail: seq<byte>)
    returns (r: string)
    requires WellFormed(d) && d.LocationDescriptor?
    requires data == [|Payload(d)|] + (Payload(d) + tail)
    ensures r == if location == "" then d.path else location
    ensures r == if location == "" then Text(Body(data)) else location
  {
    BodyIsPayload(data, d, tail);
    r := location;
    if location == "" {
      var descLen := data[0];
      if descLen > 0 {
        var p := data[1..];
        Cut(p, Codes(d.path), tail);
        r := Text(p[..descLen]);
      }
    }
  }

  method ParseSimpleAppBoundaryDesc(data: seq<byte>, boundaries: seq<string>,
                                    ghost d: Descriptor, ghost tail: seq<byte>)
    returns (r: seq<string>)
    requires WellFormed(d) && d.BoundaryDescriptor?
    requires data == [|Payload(d)|] + (Payload(d) + tail)
    ensures r == boundaries + d.boundaries
    ensures BoundariesAt(Body(data), boundaries) == Some(r)
  {
    BodyIsPayload(data, d, tail);
    BoundaryPositions(d, boundaries);
    var p := data[1..];
    Regroup([|d.boundaries|], EncodeStrings(d.boundaries), tail);
    Head(p, |d.boundaries|, EncodeStrings(d.boundaries) + tail);
    var added := ParseStrings(p[1..], p[0], d.boundaries, tail);
    r := boundaries + added;
  }

  /** The four bytes of one rating. */
  method ParseRating(p: seq<byte>, ghost rs: seq<Rating>, ghost tail: seq<byte>) returns (rating: Rating)
    requires AreRatings(rs) && rs != [] && p == EncodeRatings(rs) + tail
    ensures rating == rs[0] && |p| >= 4 && p[4..] == EncodeRatings(rs[1..]) + tail
  {
    hide EncodeRatings, IsRating;
    ghost var after := EncodeRatings(rs[1..]) + tail;
    RatingShape(rs, tail);
    RatingValue(rs[0].value);
    Cut(p, Codes(rs[0].region), [U8(rs[0].value as int - 3)] + after);
    assert IsRating(rs[0]);
    RatingRegion(rs[0]);
    Head(p[3..], U8(rs[0].value as int - 3), after);
    rating := Rating("dvb-si", Text(p[..3]), U8(p[3] as int + 3));
  }

  /** The loop over the ratings: `descLen` counts the bytes down in a `uint8_t`. */
  method ReadRatings(data: seq<byte>, size: byte, ghost rs: seq<Rating>, ghost extra: nat, ghost behind: seq<byte>)
    returns (r: seq<Rating>)
    requires AreRatings(rs) && rs != [] && extra < 4 && size == 4 * |rs| + extra
    requires data == EncodeRatings(rs) + behind
    ensures r == RatingsRead(rs, extra)
  {
    hide EncodeRatings, AreRatings;
    r := [];
    var p, descLen := data, size;
    ghost var rest := rs;
    var again := true;
    while again
      invariant AreRatings(rest) && descLen == 4 * |rest| + extra
      invariant p == EncodeRatings(rest) + behind
      invariant again ==> rest != [] && r + RatingsRead(rest, extra) == RatingsRead(rs, extra)
      invariant !again ==> r == RatingsRead(rs, extra)
      decreases |rest|, again
    {
      var rating := ParseRating(p, rest, behind);
      TailRatings(rest);
      p := p[4..];
      r := r + [rating];
      descLen := U8(descLen as int - 4);
      rest := rest[1..];
      again := descLen > 4;
    }
  }

  lemma TailRatings(rs: seq<Rating>)
    requires AreRatings(rs) && rs != []
    ensures AreRatings(rs[1..])
  {
  }

  method ParseParentalRatingDesc(data: seq<byte>, ratings: seq<Rating>, ghost d: Descriptor, ghost tail: seq<byte>)
    returns (r: seq<Rating>)
    requires WellFormed(d) && d.RatingDescriptor?
    requires data == [|Payload(d)|] + (Payload(d) + tail)
    ensures r == if ratings == [] then RatingsRead(d.ratings, |d.extra|) else ratings
    ensures RatingsAt(Body(data), ratings) == Some(r)
  {
    BodyIsPayload(data, d, tail);
    RatingsPositions(d, ratings);
    r := ratings;
    if ratings == [] {
      Regroup(EncodeRatings(d.ratings), d.extra, tail);
      Head(data, |Payload(d)|, Payload(d) + tail);
      assert data[0] == |EncodeRatings(d.ratings)| + |d.extra|;
      r := ReadRatings(data[1..], data[0], d.ratings, |d.extra|, d.extra + tail);
    }
  }

  method ParseGraphicsIds(data: seq<byte>, numGraphics: int, ghost ids: seq<byte>, ghost tail: seq<byte>)
    returns (r: seq<nat>)
    requires numGraphics == |ids| && data == ids + tail
    ensures r == GraphicsLines(ids)
  {
    r := [];
    var p := data;
    var i := 0;
    ghost var rest := ids;
    while i < numGraphics
      invariant i + |rest| == numGraphics && p == rest + tail
      invariant r + GraphicsLines(rest) == GraphicsLines(ids)
    {
      Regroup([rest[0]], rest[1..], tail);
      Head(p, rest[0], rest[1..] + tail);
      Regroup(r, GraphicsLine(rest[0]), GraphicsLines(rest[1..]));
      var id := p[0];
      if id == 4 {
        r := r + [1080];
      } else if id == 5 {
        r := r + [2160];
      } else if id == 6 {
        r := r + [4320];
      }
      p := p[1..];
      rest := rest[1..];
      i := i + 1;
    }
  }

  method ParseGraphicsConstraints(data: seq<byte>, graphics: seq<nat>, ghost d: Descriptor, ghost tail: seq<byte>)
    returns (r: seq<nat>)
    requires WellFormed(d) && d.GraphicsDescriptor?
    requires data == [|Payload(d)|] + (Payload(d) + tail)
    ensures r == if graphics == [] then [720] + GraphicsLines(GraphicsIds(d.bytes)) else graphics
    ensures r == GraphicsAt(Body(data), graphics)
  {
    BodyIsPayload(data, d, tail);
    LinePositions(GraphicsIds(d.bytes));
    r := graphics;
    if graphics == [] {
      r := [720];
      var numGraphics: int := data[0] as int - 1;
      if numGraphics > 0 {
        assert data[2..] == GraphicsIds(d.bytes) + tail;
        var lines := ParseGraphicsIds(data[2..], numGraphics, GraphicsIds(d.bytes), tail);
        r := r + lines;
      }
    }
  }

  lemma LoopPositions(data: seq<byte>, app: App, ds: seq<Descriptor>, tail: seq<byte>)
    requires AllWellFormed(ds) && NoOverrun(ds, app) && data == EncodeAll(ds) + tail
    ensures DescriptorsAt(data[..|EncodeAll(ds)|], app) == Some(ApplyAll(ds, app))
  {
    hide DescriptorsAt, EncodeAll;
    DescriptorsPositions(ds, app);
    assert data[..|EncodeAll(ds)|] == EncodeAll(ds);
  }

  lemma NextDescriptor(ds: seq<Descriptor>, app: App)
    requires AllWellFormed(ds) && |EncodeAll(ds)| > 0 && AreSlots(app.transports) && NoOverrun(ds, app)
    ensures ds != [] && WellFormed(ds[0]) && AllWellFormed(ds[1..])
    ensures ds[0].TransportDescriptor? ==> HasSlot(app.transports, ds[0].protocolId)
    ensures AreSlots(Apply(ds[0], app).transports) && NoOverrun(ds[1..], Apply(ds[0], app))
    ensures ApplyAll(ds, app) == ApplyAll(ds[1..], Apply(ds[0], app))
  {
    assert ds != [];
    hide Payload, EncodeAll;
  }

  lemma NoDescriptorsLeft(ds: seq<Descriptor>, app: App)
    requires AllWellFormed(ds) && |EncodeAll(ds)| == 0
    ensures ApplyAll(ds, app) == app
  {
  }

  /**
   * The descriptor loop of one application. `done` is a `uint16_t`; the second loop invariant is why it
   * never wraps.
   */
  method ParseApplication(data: seq<byte>, len: uint16, app: App, ghost ds: seq<Descriptor>, ghost tail: seq<byte>)
    returns (r: App)
    requires AllWellFormed(ds) && AreSlots(app.transports) && NoOverrun(ds, app)
    requires len == |EncodeAll(ds)| && data == EncodeAll(ds) + tail
    ensures r == ApplyAll(ds, app)
    ensures DescriptorsAt(data[..len], app) == Some(r)
  {
    hide DescriptorsAt, Apply, ApplyAll, AllWellFormed, EncodeAll, Printable, Payload, Tag, HasSlot, NoOverrun;
    hide AreSlots, DescriptorAt, Body;
    LoopPositions(data, app, ds, tail);
    r := app;
    var p := data;
    var done: uint16 := 0;
    ghost var rest := ds;
    while done < len
      invariant AllWellFormed(rest) && AreSlots(r.transports) && NoOverrun(rest, r)
      invariant done + |EncodeAll(rest)| == len
      invariant p == EncodeAll(rest) + tail
      invariant ApplyAll(rest, r) == ApplyAll(ds, app)
      decreases |rest|
    {
      NextDescriptor(rest, r);
      ghost var d := rest[0];
      ghost var after := EncodeAll(rest[1..]) + tail;
      EncodeShape(rest, tail);
      Head(p, Tag(d), [|Payload(d)|] + (Payload(d) + after));
      var tag := p[0];
      p := p[1..];
      r := ParseDescriptor(tag, p, r, d, after);
      Head(p, |Payload(d)|, Payload(d) + after);
      var size := p[0];
      p := p[1..];
      done := (done + size + 2) % 0x1_0000;
      Cut(p, Payload(d), after);
      p := p[size..];
      rest := rest[1..];
    }
    NoDescriptorsLeft(rest, r);
  }

  /** The `switch` of the descriptor loop. */
  method ParseDescriptor(tag: byte, data: seq<byte>, app: App, ghost d: Descriptor, ghost tail: seq<byte>)
    returns (r: App)
    requires WellFormed(d) && tag == Tag(d)
    requires AreSlots(app.transports) && (d.TransportDescriptor? ==> HasSlot(app.transports, d.protocolId))
    requires data == [|Payload(d)|] + (Payload(d) + tail)
    ensures r == Apply(d, app)
    ensures DescriptorAt(tag, Body(data), app) == Some(r)
  {
    BodyIsPayload(data, d, tail);
    DescriptorPositions(d, app);
    r := app;
    if tag == TAG_APP {
      var desc := ParseAppDesc(data, app.desc, d, tail);
      r := app.(desc := desc);
    } else if tag == TAG_NAME {
      var names := ParseAppNameDesc(data, app.names, d, tail);
      r := app.(names := names);
    } else if tag == TAG_TRANSPORT {
      var transports := ParseTransportProtocolDesc(data, app.transports, d, tail);
      r := app.(transports := transports);
    } else if tag == TAG_LOCATION {
      var location := ParseSimpleAppLocationDesc(data, app.location, d, tail);
      r := app.(location := location);
    } else if tag == TAG_USAGE {
      if data[0] == 1 && app.usageType != USAGE_TELETEXT {
        assert data[1] == Payload(d)[0];
        r := app.(usageType := data[1]);
      }
    } else if tag == TAG_BOUNDARY {
      var boundaries := ParseSimpleAppBoundaryDesc(data, app.boundaries, d, tail);
      r := app.(boundaries := boundaries);
    } else if tag == TAG_RATING {
      var ratings := ParseParentalRatingDesc(data, app.ratings, d, tail);
      r := app.(ratings := ratings);
    } else if tag == TAG_GRAPHICS {
      var graphics := ParseGraphicsConstraints(data, app.graphics, d, tail);
      r := app.(graphics := graphics);
    }
  }
}
