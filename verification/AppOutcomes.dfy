/**
 * What the calls of the application manager lead to. The outcomes are stated in terms of the state before, the table
 * and the new state alone, by the conditions of section 6.2.2 of ETSI TS 102 796, not by the functions that compute
 * the new state.
 */
module AppOutcomes {
  import opened Common
  import opened AitModel
  import opened AitLookup
  import opened AppManagerModel
  import opened AppManagerRuns
  import Origin

  // ---------------------------------------------------------------- applications

  /** `path` is `url` up to its fragment. */
  predicate IsPath(path: string, url: string) {
    && |path| <= |url| && url[..|path|] == path && '#' !in path
    && (|path| < |url| ==> url[|path|] == '#')
  }

  /** `query` is appended to `path`: only the first question mark of an address stays one. */
  predicate IsQueried(url: string, path: string, query: string) {
    && |url| == |path| + |query| && url[..|path|] == path
    && forall i | 0 <= i < |query| ::
         url[|path| + i] == if query[i] == '?' && '?' in path then '&' else query[i]
  }

  /** `url` is `base` followed by the path of `location` and by `query`. */
  ghost predicate IsMerged(url: string, base: string, location: string, query: string) {
    && |base| <= |url| && url[..|base|] == base
    && exists path :: IsPath(path, location) && IsQueried(url[|base|..], path, query)
  }

  lemma UrlsAreMerged(base: string, location: string, query: string)
    ensures IsMerged(MergeUrlParams(base, location, query), base, location, query)
  {
    var path := location[..Origin.Find(location, '#', 0)];
    assert IsPath(path, location);
    var url := MergeUrlParams(base, location, query);
    assert url[|base|..] == path + if '?' in path then ReplaceMarks(query) else query;
    assert IsQueried(url[|base|..], path, query);
  }

  /** The part of a linked application scheme in front of its query. */
  predicate IsSchemeName(name: string, scheme: string) {
    && |name| <= |scheme| && scheme[..|name|] == name && '?' !in name
    && (|name| < |scheme| ==> scheme[|name|] == '?')
  }

  /** The query by which a linked application learns where it was started from. */
  function LinkQuery(name: string): string {
    if name == "urn:dvb:metadata:cs:LinkedApplicationCS:2019:1.2" then "?lloc=service"
    else if name == "urn:dvb:metadata:cs:LinkedApplicationCS:2019:2" then "?lloc=availability"
    else ""
  }

  /** `url` is the page of `a` once its scheme is `scheme`, of which `name` is the name. */
  ghost predicate IsLinked(url: string, a: AppState, name: string, scheme: string)
    requires |name| <= |scheme|
  {
    if scheme == "" then url == a.loadedUrl
    else if name != scheme then IsMerged(url, "", a.entryUrl, scheme[|name|..])
    else IsMerged(url, "", a.loadedUrl, LinkQuery(name))
  }

  /** `b` is `a` with the description `desc`: what it was created with stays, its protocol and page follow. */
  ghost predicate IsUpdated(a: AppState, b: AppState, desc: App, network: bool) {
    && b == a.(desc := desc, protocolId := ProtocolId(desc, network), scheme := b.scheme, loadedUrl := b.loadedUrl)
    && IsSchemeName(b.scheme, desc.scheme)
    && IsLinked(b.loadedUrl, a, b.scheme, desc.scheme)
  }

  lemma LinkQueries(name: string)
    ensures ParamsOf(name) == LinkQuery(name)
  {
  }

  lemma PageIsLinked(a: AppState, desc: App)
    ensures
      var name := desc.scheme[..Origin.Find(desc.scheme, '?', 0)];
      IsSchemeName(name, desc.scheme) && IsLinked(UpdatedUrl(a, desc), a, name, desc.scheme)
  {
    hide LinkQuery, ParamsOf, MergeUrlParams, IsMerged;
    var mark := Origin.Find(desc.scheme, '?', 0);
    var name := desc.scheme[..mark];
    if mark == |desc.scheme| {
      assert name == desc.scheme;
    } else {
      assert |name| < |desc.scheme|;
    }
    LinkQueries(name);
    UrlsAreMerged("", a.entryUrl, desc.scheme[mark..]);
    UrlsAreMerged("", a.loadedUrl, LinkQuery(name));
  }

  lemma UpdateOutcome(a: AppState, desc: App, network: bool, pc: Parental)
    ensures Update(a, desc, network, pc).None? <==> AgeRestricted(desc.ratings, pc)
    ensures Update(a, desc, network, pc).Some? ==> IsUpdated(a, Update(a, desc, network, pc).value, desc, network)
  {
    hide AgeRestricted, ProtocolId, UpdatedUrl, IsLinked, IsSchemeName;
    PageIsLinked(a, desc);
  }

  /** The value of a lower-case hexadecimal digit, 16 for any other character. */
  function DigitValue(c: char): nat {
    if '0' <= c <= '9' then c as nat - 48 else if 'a' <= c <= 'f' then c as nat - 97 + 10 else 16
  }

  /** `s` is the shortest lower-case hexadecimal numeral of `n`. */
  predicate IsHexNumeral(s: string, n: nat) {
    && s != "" && DigitValue(s[|s| - 1]) == n % 16
    && if n < 16 then |s| == 1 else IsHexNumeral(s[..|s| - 1], n / 16)
  }

  lemma {:induction false} NumeralsAreHex(n: nat)
    ensures IsHexNumeral(Hex(n), n)
  {
    var s := Hex(n);
    if n >= 16 {
      NumeralsAreHex(n / 16);
      assert s[..|s| - 1] == Hex(n / 16);
    }
  }

  /** The address of a carousel: network, stream, service and component, in that order. */
  ghost predicate IsDvbUrl(url: string, t: Triplet, componentTag: byte) {
    exists a, b, c, d ::
      && url == "dvb://" + a + "." + b + "." + c + "." + d + "/"
      && IsHexNumeral(a, t.originalNetworkId) && IsHexNumeral(b, t.transportStreamId)
      && IsHexNumeral(c, t.serviceId) && IsHexNumeral(d, componentTag)
  }

  lemma DvbUrls(t: Triplet, componentTag: byte)
    ensures IsDvbUrl(DvbUrl(t, componentTag), t, componentTag)
  {
    NumeralsAreHex(t.originalNetworkId);
    NumeralsAreHex(t.transportStreamId);
    NumeralsAreHex(t.serviceId);
    NumeralsAreHex(componentTag);
    hide Hex, IsHexNumeral;
  }

  /** A broadband transport needs the network, a carousel none. */
  predicate CanBeTried(t: Transport, network: bool) {
    !t.failedToLoad && (t.protocolId == 1 || (t.protocolId == 3 && network))
  }

  predicate IsFirstToTry(ts: seq<Transport>, network: bool, i: nat) {
    && i < |ts| && CanBeTried(ts[i], network)
    && forall k | 0 <= k < i :: !CanBeTried(ts[k], network)
  }

  predicate NoneToTry(ts: seq<Transport>, network: bool) {
    forall i | 0 <= i < |ts| :: !CanBeTried(ts[i], network)
  }

  lemma TransportToTry(app: App, network: bool)
    ensures
      var i := FirstUsable(app.transports, network);
      if i < |app.transports| then IsFirstToTry(app.transports, network, i) && ProtocolId(app, network) != 0
      else NoneToTry(app.transports, network) && ProtocolId(app, network) == 0
  {
    var ts := app.transports;
    assert forall i | 0 <= i < |ts| :: CanBeTried(ts[i], network) <==> Usable(ts[i], network);
  }

  /** The address in front of the location: that of the first transport to try, or of a carousel in the service. */
  ghost predicate IsBaseUrl(url: string, desc: App, service: Triplet, network: bool) {
    var ts := desc.transports;
    if NoneToTry(ts, network) then url == ""
    else
      exists i | 0 <= i < |ts| ::
        && IsFirstToTry(ts, network, i)
        && if ts[i].protocolId == 3 then url == ts[i].baseUrl
           else IsDvbUrl(url, if ts[i].remote then ts[i].dvb else service, ts[i].componentTag)
  }

  lemma BaseUrls(desc: App, service: Triplet, network: bool)
    ensures IsBaseUrl(BaseUrl(desc, service, network), desc, service, network)
  {
    hide DvbUrl, IsDvbUrl;
    var ts := desc.transports;
    TransportToTry(desc, network);
    var i := FirstUsable(ts, network);
    if i < |ts| {
      assert IsFirstToTry(ts, network, i);
      DvbUrls(if ts[i].remote then ts[i].dvb else service, ts[i].componentTag);
    }
  }

  // ---------------------------------------------------------------- starting applications

  /** An operator application by its usage in the table or because it is asked for. */
  predicate IsOperators(desc: App, asked: bool) {
    asked || desc.appUsage == "urn:hbbtv:opapp:privileged:2017" || desc.appUsage == "urn:hbbtv:opapp:opspecific:2017"
  }

  /** How an application is asked for. */
  datatype Request = Request(desc: App, query: string, broadcast: bool, trusted: bool, asOperators: bool)

  /** The application made for a request; an operator application ignores all but the description. */
  ghost predicate IsMade(a: AppState, id: nat, r: Request, service: Triplet, network: bool) {
    exists made: AppState ::
      && IsUpdated(made, a, r.desc, network)
      && made.id == id && made.scheme == "" && made.protocolId == 0 && made.desc == r.desc
      && made.loadedUrl == made.entryUrl
      && if IsOperators(r.desc, r.asOperators) then
           && made.kind == OpApp && !made.foreground && made.broadcast && !made.trusted
           && IsBaseUrl(made.baseUrl, r.desc, Triplet(0xFFFF, 0xFFFF, 0xFFFF), network)
           && IsMerged(made.entryUrl, made.baseUrl, r.desc.location, "")
         else
           && made.kind == HbbTV && made.broadcast == r.broadcast && made.foreground == !r.broadcast
           && made.trusted == r.trusted
           && IsBaseUrl(made.baseUrl, r.desc, service, network)
           && IsMerged(made.entryUrl, made.baseUrl, r.desc.location, r.query)
  }

  /** `t` is `s` with application `id` in the slot `operators` says, in place of what was there. */
  predicate TakesSlot(s: Manager, t: Manager, id: nat, operators: bool) {
    && id in t.apps
    && t.apps == (s.apps - {if operators then s.opId else s.hbbtvId})[id := t.apps[id]]
    && (if operators then t.opId == id && t.hbbtvId == s.hbbtvId else t.hbbtvId == id && t.opId == s.opId)
    && t.lastId == id
    && t.completed == s.completed && t.firstAit == s.firstAit && t.aitPid == s.aitPid && t.network == s.network
    && if t.apps[id].broadcast || s.current.originalNetworkId == 0xFFFF || s.current.transportStreamId == 0xFFFF
          || s.current.serviceId == 0xFFFF
       then t.current == s.current && t.previous == s.previous
       else t.current == t.previous == Triplet(0xFFFF, 0xFFFF, 0xFFFF)
  }

  /** `t` is `s` after the request: an application of its own in its slot, or an id used up for parental reasons. */
  ghost predicate Creates(s: Manager, t: Manager, r: Request, env: Env) {
    var id := s.lastId + 1;
    if AgeRestricted(r.desc.ratings, env.pc) then t == s.(lastId := id)
    else TakesSlot(s, t, id, IsOperators(r.desc, r.asOperators)) && IsMade(t.apps[id], id, r, s.current, s.network)
  }

  lemma MadeFromDescription(id: nat, r: Request, service: Triplet, network: bool, pc: Parental)
    ensures
      var a := if IsOperators(r.desc, r.asOperators)
               then FromDescription(id, OpApp, r.desc, INVALID_TRIPLET, network, "", true, false, pc)
               else FromDescription(id, HbbTV, r.desc, service, network, r.query, r.broadcast, r.trusted, pc);
      && (a.None? <==> AgeRestricted(r.desc.ratings, pc))
      && (a.Some? ==>
            && a.value.id == id && a.value.kind == (if IsOperators(r.desc, r.asOperators) then OpApp else HbbTV)
            && IsMade(a.value, id, r, service, network))
  {
    hide AgeRestricted, Update, IsUpdated, IsBaseUrl, BaseUrl, IsMerged, MergeUrlParams;
    var op := IsOperators(r.desc, r.asOperators);
    var (where, query) := (if op then INVALID_TRIPLET else service, if op then "" else r.query);
    var base := BaseUrl(r.desc, where, network);
    var entry := MergeUrlParams(base, r.desc.location, query);
    var made := if op then Blank(id, OpApp, true, false, r.desc, entry, base)
                else Blank(id, HbbTV, r.broadcast, r.trusted, r.desc, entry, base);
    BaseUrls(r.desc, where, network);
    UrlsAreMerged(base, r.desc.location, query);
    UpdateOutcome(made, r.desc, network, pc);
    if Update(made, r.desc, network, pc).Some? {
      UpdatedKeepsId(made, Update(made, r.desc, network, pc).value, r.desc, network);
    }
  }

  lemma UpdatedKeepsId(a: AppState, b: AppState, desc: App, network: bool)
    requires IsUpdated(a, b, desc, network)
    ensures b.id == a.id && b.kind == a.kind && b.broadcast == a.broadcast && b.desc == desc
  {
  }

  lemma CreationOutcome(s: Manager, r: Request, env: Env)
    ensures
      Creates(s, CreateFromDescription(s, r.desc, r.query, r.broadcast, r.trusted, r.asOperators, env).0, r, env)
    ensures CreateFromDescription(s, r.desc, r.query, r.broadcast, r.trusted, r.asOperators, env).1
            == if AgeRestricted(r.desc.ratings, env.pc) then 0 else s.lastId + 1
  {
    hide FromDescription, AgeRestricted, IsMade;
    MadeFromDescription(s.lastId + 1, r, s.current, s.network, env.pc);
    assert MakesOpApp(r.desc, r.asOperators) == IsOperators(r.desc, r.asOperators);
    hide IsOperators, MakesOpApp;
  }

  /** Which linked application scheme an address asks for. */
  predicate IsAskedFor(scheme: string, url: string) {
    scheme == if exists i: nat | i <= |url| :: HasAt(url, "lloc=service", i)
              then "urn:dvb:metadata:cs:LinkedApplicationCS:2019:1.2"
              else if exists i: nat | i <= |url| :: HasAt(url, "lloc=availability", i)
              then "urn:dvb:metadata:cs:LinkedApplicationCS:2019:2"
              else "urn:dvb:metadata:cs:LinkedApplicationCS:2019:1.1"
  }

  /** An application made from an address is broadcast-independent, and all its addresses are this one. */
  predicate CreatesFromUrl(s: Manager, t: Manager, url: string, runAsOpApp: bool, unset: App) {
    var id := s.lastId + 1;
    if url == "" then t == s.(lastId := id)
    else
      && TakesSlot(s, t, id, runAsOpApp)
      && var a := t.apps[id];
         && a.id == id && a.kind == (if runAsOpApp then OpApp else HbbTV) && a.foreground == !runAsOpApp
         && !a.broadcast && !a.trusted && a.protocolId == 0 && a.desc == unset
         && a.entryUrl == a.baseUrl == a.loadedUrl == url && IsAskedFor(a.scheme, url)
  }

  lemma UrlCreationOutcome(s: Manager, url: string, runAsOpApp: bool, unset: App)
    ensures CreatesFromUrl(s, CreateFromUrl(s, url, runAsOpApp, unset).0, url, runAsOpApp, unset)
    ensures CreateFromUrl(s, url, runAsOpApp, unset).1 == if url == "" then 0 else s.lastId + 1
  {
    SchemeIsAskedFor(url);
    hide SchemeOf, IsAskedFor, RunApp, TakesSlot;
    var kind := if runAsOpApp then OpApp else HbbTV;
    RunningTakesSlot(s, FromUrl(s.lastId + 1, kind, url, unset));
  }

  lemma SchemeIsAskedFor(url: string)
    ensures IsAskedFor(SchemeOf(url), url)
  {
  }

  lemma RunningTakesSlot(s: Manager, app: AppState)
    requires app.id == s.lastId + 1
    ensures
      var t := RunApp(s.(lastId := app.id), app);
      TakesSlot(s, t, app.id, app.kind == OpApp) && app.id in t.apps && t.apps[app.id] == app
  {
  }

  /** `t` is `s` after the best eligible entry of its table, if there is one, has been started. */
  ghost predicate StartsTheBest(s: Manager, t: Manager, env: Env) {
    if s.firstAit && s.completed.Some? && exists i | 0 <= i < |s.completed.value| ::
         Eligible(s.completed.value[i], env.pc, env.version)
    then
      exists i | 0 <= i < |s.completed.value| ::
        && IsAutoStart(s.completed.value, env.pc, env.version, i)
        && TakesSlot(s, t, s.lastId + 1, IsOperators(s.completed.value[i], false))
        && IsMade(t.apps[s.lastId + 1], s.lastId + 1, Request(s.completed.value[i], "", true, false, false), s.current,
                  s.network)
    else t == s
  }

  lemma AutostartOutcome(s: Manager, env: Env)
    ensures StartsTheBest(s, Autostart(s, env).0, env)
    ensures Autostart(s, env).1 == 0 <==> Autostart(s, env).0 == s
    ensures Autostart(s, env).1 != 0 ==> Autostart(s, env).1 == s.lastId + 1
  {
    hide CreateFromDescription, IsMade, IsAutoStart, TakesSlot, Eligible, AutoStartIndex;
    if s.firstAit && s.completed.Some? {
      var table := s.completed.value;
      PickIsBest(table, env);
      var pick := AutoStartIndex(table, env.pc, env.version, |table|);
      if pick.Some? {
        var r := Request(table[pick.value], "", true, false, false);
        CreationOutcome(s, r, env);
        TakingASlotCounts(s, Autostart(s, env).0, s.lastId + 1, IsOperators(r.desc, false));
      }
    }
  }

  lemma TakingASlotCounts(s: Manager, t: Manager, id: nat, operators: bool)
    requires TakesSlot(s, t, id, operators)
    ensures t.lastId == id
  {
  }

  lemma PickIsBest(table: seq<App>, env: Env)
    ensures
      var pick := AutoStartIndex(table, env.pc, env.version, |table|);
      if pick.Some? then
        && pick.value < |table| && IsAutoStart(table, env.pc, env.version, pick.value)
        && Eligible(table[pick.value], env.pc, env.version) && !AgeRestricted(table[pick.value].ratings, env.pc)
      else forall i | 0 <= i < |table| :: !Eligible(table[i], env.pc, env.version)
  {
    assert table[..|table|] == table;
  }

  // ---------------------------------------------------------------- new tables

  /** `s` with the table that has just been completed, before anything follows from it. */
  function WithTable(s: Manager, table: seq<App>): Manager {
    s.(completed := Some(table), firstAit := true)
  }

  /** `s` without one of its applications. */
  function Without(s: Manager, id: nat): Manager {
    s.(apps := map k | k in s.apps && k != id :: s.apps[k],
       hbbtvId := if s.hbbtvId == id then 0 else s.hbbtvId,
       opId := if s.opId == id then 0 else s.opId)
  }

  lemma KilledIsGone(s: Manager, id: nat)
    requires SlotsAgree(s) && id in s.apps
    ensures Kill(s, id) == Without(s, id)
  {
    assert s.apps - {id} == map k | k in s.apps && k != id :: s.apps[k];
  }

  /** The table lets a running broadcast-related application go on. */
  predicate GoesOn(a: AppState, table: seq<App>, pc: Parental) {
    var e := Find(table, a.desc.orgId, a.desc.appId);
    && e.Some? && e.value.controlCode != 4
    && (exists i | 0 <= i < |e.value.transports| :: e.value.transports[i].protocolId == a.protocolId)
    && !AgeRestricted(e.value.ratings, pc)
  }

  /** The first entry of the table with the ids of `a`. */
  function EntryOf(a: AppState, table: seq<App>): App
    requires Signalled(table, a)
  {
    Find(table, a.desc.orgId, a.desc.appId).value
  }

  /** `t` is `s` with its HbbTV application changed in place. */
  predicate ChangesOnlyTheRunning(s: Manager, t: Manager) {
    s.hbbtvId in s.apps && s.hbbtvId in t.apps && t == s.(apps := s.apps[s.hbbtvId := t.apps[s.hbbtvId]])
  }

  /** What a further table of the service leads to. */
  ghost predicate FollowsUpdate(s: Manager, t: Manager, table: seq<App>, env: Env) {
    var u := WithTable(s, table);
    if s.hbbtvId !in s.apps then StartsTheBest(u, t, env)
    else
      var a := s.apps[s.hbbtvId];
      if !a.broadcast then t == u
      else if GoesOn(a, table, env.pc) then
        ChangesOnlyTheRunning(u, t) && IsUpdated(a, t.apps[s.hbbtvId], EntryOf(a, table), s.network)
      else StartsTheBest(Without(u, s.hbbtvId), t, env)
  }

  lemma UpdatedTableOutcome(s: Manager, table: seq<App>, env: Env)
    requires SlotsAgree(s) && s.firstAit
    ensures FollowsUpdate(s, NewTable(s, table, env), table, env)
  {
    hide Autostart, StartsTheBest, AgeRestricted, Update, Kill, Find, IsUpdated, Without;
    var u := WithTable(s, table);
    if s.hbbtvId in s.apps {
      var a := s.apps[s.hbbtvId];
      KilledIsGone(u, s.hbbtvId);
      WithoutIt(u, s.hbbtvId);
      AutostartOutcome(Without(u, s.hbbtvId), env);
      if Signalled(table, a) {
        UpdateOutcome(a, EntryOf(a, table), s.network, env.pc);
      }
    } else {
      AutostartOutcome(u, env);
    }
  }

  lemma WithoutIt(s: Manager, id: nat)
    ensures id !in Without(s, id).apps && Without(s, id).completed == s.completed
    ensures id == s.hbbtvId && 0 !in s.apps ==> !Running(Without(s, id))
  {
  }

  /** The origin of `url` is that of the base address or of a boundary, white space behind a port aside. */
  predicate IsInside(url: string, base: string, boundaries: seq<string>) {
    var o := Origin.Unspaced(url);
    o != "" && (o == Origin.Unspaced(base) || exists i | 0 <= i < |boundaries| :: o == Origin.Unspaced(boundaries[i]))
  }

  lemma InsideExactlyWhen(url: string, base: string, boundaries: seq<string>)
    ensures Origin.InBoundaries(url, base, boundaries) <==> IsInside(url, base, boundaries)
  {
    hide Origin.SameOrigin, Origin.Unspaced;
    Origin.SameOriginExactlyWhen(url, base);
    forall i | 0 <= i < |boundaries|
      ensures Origin.SameOrigin(url, boundaries[i]) <==> Origin.Unspaced(url) == Origin.Unspaced(boundaries[i]) != ""
    {
      Origin.SameOriginExactlyWhen(url, boundaries[i]);
    }
  }

  /** An application outside any service may join the one that signals it with entry `e`. */
  predicate MayJoin(a: AppState, e: App, network: bool, pc: Parental) {
    && !AgeRestricted(e.ratings, pc)
    && (e.controlCode == 1 || e.controlCode == 2)
    && (exists i | 0 <= i < |e.transports| :: IsFirstToTry(e.transports, network, i) && e.transports[i].protocolId == 3)
    && IsInside(a.entryUrl, a.baseUrl, e.boundaries)
    && IsInside(UpdatedUrl(a, e), a.baseUrl, e.boundaries)
  }

  predicate Joins(a: AppState, table: seq<App>, network: bool, pc: Parental) {
    a.desc.orgId != 0 && a.desc.appId != 0 && Signalled(table, a) && MayJoin(a, EntryOf(a, table), network, pc)
  }

  /** `b` is `a` updated twice to the same entry, in between made broadcast-related. */
  ghost predicate IsUpdatedTwice(a: AppState, b: AppState, e: App, network: bool) {
    exists c: AppState :: IsUpdated(a, c, e, network) && IsUpdated(c.(broadcast := true), b, e, network)
  }

  /** What the first table of a service leads to. */
  ghost predicate FollowsFirst(s: Manager, t: Manager, table: seq<App>, env: Env) {
    var u := WithTable(s, table);
    if s.hbbtvId !in s.apps then StartsTheBest(u, t, env)
    else
      var a := s.apps[s.hbbtvId];
      if if a.broadcast then (a.desc.desc.serviceBound ==> env.instanceInCurrent) && GoesOn(a, table, env.pc)
         else Joins(a, table, s.network, env.pc)
      then ChangesOnlyTheRunning(u, t) && IsUpdatedTwice(a, t.apps[s.hbbtvId], EntryOf(a, table), s.network)
      else StartsTheBest(Without(u, s.hbbtvId), t, env)
  }

  /** The transition to broadcast-related, by the conditions on the entry. */
  lemma JoiningOutcome(a: AppState, e: App, network: bool, pc: Parental)
    ensures
      var b := Update(a, e, network, pc);
      (b.Some? && ToBroadcast(b.value).Some?) <==> MayJoin(a, e, network, pc)
    ensures
      var b := Update(a, e, network, pc);
      MayJoin(a, e, network, pc) ==> ToBroadcast(b.value) == Some(b.value.(broadcast := true))
  {
    hide AgeRestricted, UpdatedUrl, Origin.InBoundaries, IsInside;
    TransportToTry(e, network);
    InsideExactlyWhen(a.entryUrl, a.baseUrl, e.boundaries);
    InsideExactlyWhen(UpdatedUrl(a, e), a.baseUrl, e.boundaries);
    var i := FirstUsable(e.transports, network);
    forall k | 0 <= k < |e.transports| && IsFirstToTry(e.transports, network, k) ensures k == i {
    }
  }

  /** The second update to the entry of an application that was kept. */
  lemma UpdatedAgain(u: Manager, c: AppState, e: App, env: Env)
    requires SlotsAgree(u) && Running(u) && u.completed.Some? && u.apps[u.hbbtvId] == c
    requires Find(u.completed.value, c.desc.orgId, c.desc.appId) == Some(e) && !AgeRestricted(e.ratings, env.pc)
    ensures
      var t := RefreshOrAutostart(u, env);
      ChangesOnlyTheRunning(u, t) && IsUpdated(c, t.apps[u.hbbtvId], e, u.network)
  {
    hide AgeRestricted, Update, IsUpdated, Find;
    UpdateOutcome(c, e, u.network, env.pc);
  }

  lemma KeptIsUpdatedTwice(u: Manager, c: AppState, e: App, env: Env)
    requires SlotsAgree(u) && Running(u) && u.completed.Some? && Signalled(u.completed.value, u.apps[u.hbbtvId])
    requires e == EntryOf(u.apps[u.hbbtvId], u.completed.value) && !AgeRestricted(e.ratings, env.pc)
    requires IsUpdated(u.apps[u.hbbtvId], c, e, u.network)
    ensures
      var t := RefreshOrAutostart(u.(apps := u.apps[u.hbbtvId := c.(broadcast := true)]), env);
      ChangesOnlyTheRunning(u, t) && IsUpdatedTwice(u.apps[u.hbbtvId], t.apps[u.hbbtvId], e, u.network)
  {
    var a, d := u.apps[u.hbbtvId], c.(broadcast := true);
    var w := u.(apps := u.apps[u.hbbtvId := d]);
    FoundHasIds(u.completed.value, a.desc.orgId, a.desc.appId);
    UpdatedKeepsId(a, c, e, u.network);
    SameSlots(u, d);
    hide AgeRestricted, RefreshOrAutostart, IsUpdated, Find, SlotsAgree;
    UpdatedAgain(w, d, e, env);
    ChangedTwice(u, d, RefreshOrAutostart(w, env));
  }

  lemma SameSlots(u: Manager, d: AppState)
    requires SlotsAgree(u) && Running(u) && d.id == u.apps[u.hbbtvId].id && d.kind == u.apps[u.hbbtvId].kind
    ensures SlotsAgree(u.(apps := u.apps[u.hbbtvId := d]))
  {
  }

  lemma ChangedTwice(u: Manager, d: AppState, t: Manager)
    requires Running(u) && ChangesOnlyTheRunning(u.(apps := u.apps[u.hbbtvId := d]), t)
    ensures ChangesOnlyTheRunning(u, t)
  {
    assert u.apps[u.hbbtvId := d][u.hbbtvId := t.apps[u.hbbtvId]] == u.apps[u.hbbtvId := t.apps[u.hbbtvId]];
  }

  lemma FirstTableOutcome(s: Manager, table: seq<App>, env: Env)
    requires SlotsAgree(s) && !s.firstAit
    ensures FollowsFirst(s, NewTable(s, table, env), table, env)
  {
    hide Autostart, StartsTheBest, AgeRestricted, Update, Kill, Find, IsUpdated, Without, ToBroadcast, MayJoin,
      RefreshOrAutostart;
    var u := WithTable(s, table);
    if s.hbbtvId in s.apps {
      var a := s.apps[s.hbbtvId];
      KilledIsGone(u, s.hbbtvId);
      WithoutIt(u, s.hbbtvId);
      RefreshIsAutostart(Without(u, s.hbbtvId), env);
      if Signalled(table, a) {
        var e := EntryOf(a, table);
        UpdateOutcome(a, e, s.network, env.pc);
        JoiningOutcome(a, e, s.network, env.pc);
        if Update(a, e, s.network, env.pc).Some? {
          var c := Update(a, e, s.network, env.pc).value;
          UpdatedKeepsId(a, c, e, s.network);
          assert a.broadcast ==> c == c.(broadcast := true);
          KeptIsUpdatedTwice(u, c, e, env);
        }
      }
    } else {
      RefreshIsAutostart(u, env);
    }
  }

  lemma RefreshIsAutostart(u: Manager, env: Env)
    requires u.completed.Some? && !Running(u)
    ensures StartsTheBest(u, RefreshOrAutostart(u, env), env)
  {
    AutostartOutcome(u, env);
  }
}
