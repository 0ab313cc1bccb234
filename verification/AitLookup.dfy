/** Lookups in a table: the loops of ait.cpp, each proved against a function over the entries. */
module AitLookup {
  import opened Common
  import opened AitModel

  // ---------------------------------------------------------------- parental control

  /** The settings of the device; `region` has two letters, `region3` three. */
  datatype Parental = Parental(age: int, region: string, region3: string)

  function CString(s: string): string {
    if s == [] || s[0] == '\0' then [] else [s[0]] + CString(s[1..])
  }

  function LowerChar(c: char): char {
    if 'A' <= c <= 'Z' then (c as int + 32) as char else c
  }

  function Lower(s: string): string {
    seq(|s|, i requires 0 <= i < |s| => LowerChar(s[i]))
  }

  /** `strcasecmp(a, b) == 0`. */
  predicate SameIgnoringCase(a: string, b: string) {
    Lower(CString(a)) == Lower(CString(b))
  }

  predicate Allows(r: Rating, pc: Parental) {
    && r.scheme == "dvb-si"
    && ((|r.region| == 2 && SameIgnoringCase(r.region, pc.region)) ||
        (|r.region| == 3 && SameIgnoringCase(r.region, pc.region3)))
    && r.value <= pc.age
  }

  /** A rated application is restricted unless one of its ratings applies here and allows it. */
  predicate AgeRestricted(ratings: seq<Rating>, pc: Parental) {
    ratings != [] && forall i | 0 <= i < |ratings| :: !Allows(ratings[i], pc)
  }

  method IsAgeRestricted(ratings: seq<Rating>, pc: Parental) returns (restricted: bool)
    ensures restricted == AgeRestricted(ratings, pc)
  {
    if ratings != [] {
      restricted := true;
      for i := 0 to |ratings|
        invariant restricted <==> forall k | 0 <= k < i :: !Allows(ratings[k], pc)
      {
        if Allows(ratings[i], pc) {
          restricted := false;
        }
      }
    } else {
      restricted := false;
    }
  }

  // ---------------------------------------------------------------- transports

  /** The HbbTV version the build supports: 1.7.1 or 1.6.1. */
  datatype Version = Version(major: byte, minor: byte, micro: byte)

  predicate AtMost(p: Profile, v: Version) {
    p.major < v.major || (p.major == v.major && p.minor < v.minor)
    || (p.major == v.major && p.minor == v.minor && p.micro <= v.micro)
  }

  predicate Supported(profiles: seq<Profile>, v: Version) {
    exists i | 0 <= i < |profiles| :: AtMost(profiles[i], v) && profiles[i].id == 0
  }

  /** A transport that can still be tried. */
  predicate Viable(t: Transport) {
    (t.protocolId == PROTOCOL_HTTP || t.protocolId == PROTOCOL_CAROUSEL) && !t.failedToLoad
  }

  predicate HasViable(ts: seq<Transport>) {
    exists i | 0 <= i < |ts| :: Viable(ts[i])
  }

  /** A transport that can be used now: HTTP needs the network. */
  predicate Usable(t: Transport, network: bool) {
    Viable(t) && (t.protocolId == PROTOCOL_HTTP ==> network)
  }

  /** The index of the first usable transport, or the number of transports. */
  function FirstUsable(ts: seq<Transport>, network: bool): (i: nat)
    ensures i <= |ts|
    ensures i < |ts| ==> Usable(ts[i], network)
    ensures forall k | 0 <= k < i :: !Usable(ts[k], network)
  {
    if ts == [] || Usable(ts[0], network) then 0
    else
      var r := FirstUsable(ts[1..], network);
      assert forall k | 1 <= k < r + 1 :: ts[k] == ts[1..][k - 1];
      1 + r
  }

  function ProtocolId(app: App, network: bool): uint16 {
    var i := FirstUsable(app.transports, network);
    if i < |app.transports| then app.transports[i].protocolId else 0
  }

  method ExtractProtocolId(app: App, network: bool) returns (protocolId: uint16)
    ensures protocolId == ProtocolId(app, network)
  {
    for i := 0 to |app.transports|
      invariant forall k | 0 <= k < i :: !Usable(app.transports[k], network)
    {
      var t := app.transports[i];
      if t.protocolId == PROTOCOL_HTTP && !t.failedToLoad && network {
        assert Usable(t, network);
        return PROTOCOL_HTTP;
      } else if t.protocolId == PROTOCOL_CAROUSEL && !t.failedToLoad {
        assert Usable(t, network);
        return PROTOCOL_CAROUSEL;
      }
    }
    return 0;
  }

  predicate HasTransport(app: App, protocolId: uint16) {
    exists i | 0 <= i < |app.transports| :: app.transports[i].protocolId == protocolId
  }

  method AppHasTransport(app: App, protocolId: uint16) returns (found: bool)
    ensures found == HasTransport(app, protocolId)
  {
    for i := 0 to |app.transports|
      invariant forall k | 0 <= k < i :: app.transports[k].protocolId != protocolId
    {
      if app.transports[i].protocolId == protocolId {
        return true;
      }
    }
    return false;
  }

  function FailTransport(t: Transport, protocolId: uint16): Transport {
    if t.protocolId == protocolId then t.(failedToLoad := true) else t
  }

  function FailTransports(ts: seq<Transport>, protocolId: uint16): (r: seq<Transport>)
    ensures |r| == |ts|
    ensures forall i | 0 <= i < |ts| :: r[i] == FailTransport(ts[i], protocolId)
  {
    seq(|ts|, i requires 0 <= i < |ts| => FailTransport(ts[i], protocolId))
  }

  function SetFailed(app: App, protocolId: uint16): App {
    app.(transports := FailTransports(app.transports, protocolId))
  }

  method AppSetTransportFailedToLoad(app: App, protocolId: uint16) returns (r: App)
    ensures r == SetFailed(app, protocolId)
  {
    var ts := app.transports;
    for i := 0 to |ts|
      invariant |ts| == |app.transports|
      invariant forall k | 0 <= k < i :: ts[k] == FailTransport(app.transports[k], protocolId)
      invariant forall k | i <= k < |ts| :: ts[k] == app.transports[k]
    {
      if ts[i].protocolId == protocolId {
        ts := ts[i := ts[i].(failedToLoad := true)];
      }
    }
    assert ts == FailTransports(app.transports, protocolId);
    r := app.(transports := ts);
  }

  // ---------------------------------------------------------------- applications

  predicate HasIds(app: App, orgId: nat, appId: uint16) {
    app.orgId == orgId && app.appId == appId
  }

  /** The index of the first entry with these ids, or the number of entries. */
  function FindIndex(apps: seq<App>, orgId: nat, appId: uint16): (i: nat)
    ensures i <= |apps|
    ensures i < |apps| ==> HasIds(apps[i], orgId, appId)
    ensures forall k | 0 <= k < i :: !HasIds(apps[k], orgId, appId)
  {
    if apps == [] || HasIds(apps[0], orgId, appId) then 0
    else
      var r := FindIndex(apps[1..], orgId, appId);
      assert forall k | 1 <= k < r + 1 :: apps[k] == apps[1..][k - 1];
      1 + r
  }

  function Find(apps: seq<App>, orgId: nat, appId: uint16): Option<App> {
    var i := FindIndex(apps, orgId, appId);
    if i < |apps| then Some(apps[i]) else None
  }

  method FindApp(apps: seq<App>, orgId: nat, appId: uint16) returns (index: nat)
    ensures index == FindIndex(apps, orgId, appId)
  {
    index := 0;
    while index < |apps|
      invariant 0 <= index <= |apps|
      invariant forall k | 0 <= k < index :: !HasIds(apps[k], orgId, appId)
    {
      if apps[index].orgId == orgId && apps[index].appId == appId {
        break;
      }
      index := index + 1;
    }
  }

  function TeletextIndex(apps: seq<App>): (i: nat)
    ensures i <= |apps|
    ensures i < |apps| ==> apps[i].usageType == USAGE_TELETEXT
    ensures forall k | 0 <= k < i :: apps[k].usageType != USAGE_TELETEXT
  {
    if apps == [] || apps[0].usageType == USAGE_TELETEXT then 0
    else
      var r := TeletextIndex(apps[1..]);
      assert forall k | 1 <= k < r + 1 :: apps[k] == apps[1..][k - 1];
      1 + r
  }

  method TeletextApp(apps: seq<App>) returns (index: nat)
    ensures index == TeletextIndex(apps)
  {
    index := 0;
    while index < |apps|
      invariant 0 <= index <= |apps|
      invariant forall k | 0 <= k < index :: apps[k].usageType != USAGE_TELETEXT
    {
      if apps[index].usageType == USAGE_TELETEXT {
        break;
      }
      index := index + 1;
    }
  }

  // ---------------------------------------------------------------- autostart

  predicate Eligible(app: App, pc: Parental, v: Version) {
    && app.controlCode == CONTROL_AUTOSTART
    && Supported(app.desc.profiles, v)
    && !AgeRestricted(app.ratings, pc)
    && HasViable(app.transports)
  }

  /** The entry autostart picks: eligible, of the highest priority there is, the first of those. */
  predicate IsAutoStart(apps: seq<App>, pc: Parental, v: Version, i: nat) {
    && i < |apps| && Eligible(apps[i], pc, v)
    && (forall k | 0 <= k < |apps| && Eligible(apps[k], pc, v) :: apps[k].desc.priority <= apps[i].desc.priority)
    && (forall k | 0 <= k < i && Eligible(apps[k], pc, v) :: apps[k].desc.priority < apps[i].desc.priority)
  }

  /** The entry picked among the first `n`. */
  function AutoStartIndex(apps: seq<App>, pc: Parental, v: Version, n: nat): (r: Option<nat>)
    requires n <= |apps|
    ensures r.Some? ==> r.value < n && IsAutoStart(apps[..n], pc, v, r.value)
    ensures r.None? ==> forall k | 0 <= k < n :: !Eligible(apps[k], pc, v)
  {
    if n == 0 then None
    else
      var r := AutoStartIndex(apps, pc, v, n - 1);
      assert forall k | 0 <= k < n - 1 :: apps[..n][k] == apps[..n - 1][k];
      if Eligible(apps[n - 1], pc, v) && (r.None? || apps[r.value].desc.priority < apps[n - 1].desc.priority)
      then Some(n - 1) else r
  }

  /** The three conditions on the result leave no choice. */
  lemma AutoStartIsUnique(apps: seq<App>, pc: Parental, v: Version, i: nat, j: nat)
    requires IsAutoStart(apps, pc, v, i) && IsAutoStart(apps, pc, v, j)
    ensures i == j
  {
  }

  /** So they define the choice: an entry is picked exactly when it meets them. */
  lemma AutoStartExactlyWhen(apps: seq<App>, pc: Parental, v: Version, i: nat)
    ensures AutoStartIndex(apps, pc, v, |apps|) == Some(i) <==> IsAutoStart(apps, pc, v, i)
  {
    assert apps[..|apps|] == apps;
    var r := AutoStartIndex(apps, pc, v, |apps|);
    hide Eligible;
    if r.Some? && IsAutoStart(apps, pc, v, i) {
      AutoStartIsUnique(apps, pc, v, i, r.value);
    }
  }

  method AutoStartApp(apps: seq<App>, pc: Parental, v: Version) returns (r: Option<nat>)
    ensures r.Some? ==> IsAutoStart(apps, pc, v, r.value)
    ensures r.None? ==> forall k | 0 <= k < |apps| :: !Eligible(apps[k], pc, v)
    ensures r == AutoStartIndex(apps, pc, v, |apps|)
  {
    r := None;
    for index := 0 to |apps|
      invariant r == AutoStartIndex(apps, pc, v, index)
    {
      var candidate := apps[index];
      if candidate.controlCode == CONTROL_AUTOSTART {
        var supported := false;
        for i := 0 to |candidate.desc.profiles|
          invariant !supported
          invariant forall k | 0 <= k < i ::
            !(AtMost(candidate.desc.profiles[k], v) && candidate.desc.profiles[k].id == 0)
        {
          var ad := candidate.desc.profiles[i];
          if AtMost(ad, v) {
            if ad.id == 0 {
              supported := true;
              break;
            }
          }
        }
        if !supported {
          continue;
        }
        var restricted := IsAgeRestricted(candidate.ratings, pc);
        if restricted {
          continue;
        }
        var viable := false;
        for j := 0 to |candidate.transports|
          invariant !viable && forall k | 0 <= k < j :: !Viable(candidate.transports[k])
        {
          var t := candidate.transports[j];
          if t.protocolId == PROTOCOL_HTTP || t.protocolId == PROTOCOL_CAROUSEL {
            if !t.failedToLoad {
              assert Viable(t);
              viable := true;
              break;
            }
          }
        }
        if viable {
          if r.None? || apps[r.value].desc.priority < candidate.desc.priority {
            r := Some(index);
          }
        }
      }
    }
    assert apps[..|apps|] == apps;
  }

  // ---------------------------------------------------------------- what the comparisons mean

  /** A version as one number, so that versions compare as numbers do. */
  function Number(major: byte, minor: byte, micro: byte): nat {
    major as int * 0x1_0000 + minor as int * 0x100 + micro as int
  }

  lemma VersionsAreNumbers(p: Profile, v: Version)
    ensures AtMost(p, v) <==> Number(p.major, p.minor, p.micro) <= Number(v.major, v.minor, v.micro)
  {
  }

  /** The letters of `s` in front of a zero character, if there is one. */
  predicate IsCText(t: string, s: string) {
    |t| <= |s| && s[..|t|] == t && '\0' !in t && (|t| < |s| ==> s[|t|] == '\0')
  }

  predicate SameLetter(c: char, d: char) {
    c == d || ('A' <= c <= 'Z' && d as int == c as int + 32) || ('A' <= d <= 'Z' && c as int == d as int + 32)
  }

  lemma {:induction false} CTexts(s: string)
    ensures IsCText(CString(s), s)
  {
    if s != [] && s[0] != '\0' {
      CTexts(s[1..]);
      assert s == [s[0]] + s[1..];
    }
  }

  /** Two regions are the same exactly when they are as long and agree letter by letter, in either case. */
  lemma SameRegionExactlyWhen(a: string, b: string)
    ensures IsCText(CString(a), a) && IsCText(CString(b), b)
    ensures SameIgnoringCase(a, b) <==>
            |CString(a)| == |CString(b)| && forall i | 0 <= i < |CString(a)| :: SameLetter(CString(a)[i], CString(b)[i])
  {
    CTexts(a);
    CTexts(b);
    var (s, t) := (CString(a), CString(b));
    hide CString, IsCText;
    if |s| == |t| && forall i | 0 <= i < |s| :: SameLetter(s[i], t[i]) {
      assert forall i | 0 <= i < |s| :: LowerChar(s[i]) == LowerChar(t[i]);
      assert Lower(s) == Lower(t);
    } else if SameIgnoringCase(a, b) {
      assert |s| == |Lower(s)| == |Lower(t)| == |t|;
      forall i | 0 <= i < |s| ensures SameLetter(s[i], t[i]) {
        assert LowerChar(s[i]) == Lower(s)[i] == Lower(t)[i] == LowerChar(t[i]);
      }
    }
  }

  /** An application may run exactly when it is unrated, or a rating of this region is for this age or a lower one. */
  lemma RatingsAllowExactlyWhen(ratings: seq<Rating>, pc: Parental)
    ensures !AgeRestricted(ratings, pc) <==>
            || ratings == []
            || exists i | 0 <= i < |ratings| ::
                 && ratings[i].scheme == "dvb-si" && ratings[i].value as int <= pc.age
                 && ((|ratings[i].region| == 2 && SameIgnoringCase(ratings[i].region, pc.region))
                     || (|ratings[i].region| == 3 && SameIgnoringCase(ratings[i].region, pc.region3)))
  {
    hide SameIgnoringCase;
    assert forall i | 0 <= i < |ratings| ::
        Allows(ratings[i], pc) <==>
        && ratings[i].scheme == "dvb-si" && ratings[i].value as int <= pc.age
        && ((|ratings[i].region| == 2 && SameIgnoringCase(ratings[i].region, pc.region))
            || (|ratings[i].region| == 3 && SameIgnoringCase(ratings[i].region, pc.region3)));
  }

  /**
   * Autostart considers an entry exactly when it is signalled AUTOSTART, this device has a version its basic profile
   * needs, its ratings allow it, and a broadband or carousel transport of it has not failed.
   */
  lemma EligibleExactlyWhen(app: App, pc: Parental, v: Version)
    ensures Eligible(app, pc, v) <==>
            && app.controlCode == 1
            && (exists i | 0 <= i < |app.desc.profiles| ::
                  && app.desc.profiles[i].id == 0
                  && Number(app.desc.profiles[i].major, app.desc.profiles[i].minor, app.desc.profiles[i].micro)
                     <= Number(v.major, v.minor, v.micro))
            && !AgeRestricted(app.ratings, pc)
            && (exists i | 0 <= i < |app.transports| ::
                  app.transports[i].protocolId in {1, 3} && !app.transports[i].failedToLoad)
  {
    hide AgeRestricted;
    forall i | 0 <= i < |app.desc.profiles|
      ensures AtMost(app.desc.profiles[i], v) <==>
              Number(app.desc.profiles[i].major, app.desc.profiles[i].minor, app.desc.profiles[i].micro)
              <= Number(v.major, v.minor, v.micro)
    {
      VersionsAreNumbers(app.desc.profiles[i], v);
    }
    assert forall i | 0 <= i < |app.transports| ::
        Viable(app.transports[i]) <==> app.transports[i].protocolId in {1, 3} && !app.transports[i].failedToLoad;
  }
}
