/**
 * The application manager as functions on its state, one per operation of application_manager.cpp and
 * hbbtv_app.cpp. `AppManager` has the objects that update this state in place.
 */
module AppManagerModel {
  import opened Common
  import opened AitModel
  import opened AitLookup
  import Origin

  const NO_APP := 0
  const XML_PID: uint16 := 0xFFFF

  // ---------------------------------------------------------------- URLs

  const SCHEME_1_1 := "urn:dvb:metadata:cs:LinkedApplicationCS:2019:1.1"
  const SCHEME_1_2 := "urn:dvb:metadata:cs:LinkedApplicationCS:2019:1.2"
  const SCHEME_2 := "urn:dvb:metadata:cs:LinkedApplicationCS:2019:2"

  const OPAPP_PRIVILEGED := "urn:hbbtv:opapp:privileged:2017"
  const OPAPP_OPSPECIFIC := "urn:hbbtv:opapp:opspecific:2017"

  predicate HasAt(s: string, t: string, i: nat) {
    i + |t| <= |s| && s[i..i + |t|] == t
  }

  predicate Contains(s: string, t: string) {
    exists i: nat | i <= |s| :: HasAt(s, t, i)
  }

  function ReplaceMarks(s: string): string {
    seq(|s|, i requires 0 <= i < |s| => if s[i] == '?' then '&' else s[i])
  }

  function MergeUrlParams(base: string, locn: string, params: string): string {
    var path := locn[..Origin.Find(locn, '#', 0)];
    base + path + (if '?' in path then ReplaceMarks(params) else params)
  }

  function Hex(n: nat): string {
    var digit := "0123456789abcdef"[n % 16];
    if n < 16 then [digit] else Hex(n / 16) + [digit]
  }

  function DvbUrl(t: Triplet, componentTag: byte): string {
    "dvb://" + Hex(t.originalNetworkId) + "." + Hex(t.transportStreamId) + "." + Hex(t.serviceId) + "."
    + Hex(componentTag) + "/"
  }

  function BaseUrl(app: App, service: Triplet, network: bool): string {
    var i := FirstUsable(app.transports, network);
    if i == |app.transports| then ""
    else
      var t := app.transports[i];
      if t.protocolId == PROTOCOL_HTTP then t.baseUrl
      else DvbUrl(if t.remote then t.dvb else service, t.componentTag)
  }

  function SchemeOf(urlParams: string): string {
    if Contains(urlParams, "lloc=service") then SCHEME_1_2
    else if Contains(urlParams, "lloc=availability") then SCHEME_2
    else SCHEME_1_1
  }

  function ParamsOf(scheme: string): string {
    if scheme == SCHEME_1_2 then "?lloc=service" else if scheme == SCHEME_2 then "?lloc=availability" else ""
  }

  // ---------------------------------------------------------------- applications

  datatype Kind = HbbTV | OpApp

  datatype AppState = AppState(
    id: nat, kind: Kind, foreground: bool,
    broadcast: bool, trusted: bool,
    protocolId: uint16, desc: App,
    entryUrl: string, baseUrl: string, loadedUrl: string, scheme: string)

  function UpdatedUrl(a: AppState, desc: App): string {
    if desc.scheme == "" then a.loadedUrl
    else
      var mark := Origin.Find(desc.scheme, '?', 0);
      if mark < |desc.scheme| then MergeUrlParams("", a.entryUrl, desc.scheme[mark..])
      else MergeUrlParams("", a.loadedUrl, ParamsOf(desc.scheme))
  }

  /** `HbbTVApp::Update`; `None` is the exception it throws. */
  function Update(a: AppState, desc: App, network: bool, pc: Parental): Option<AppState> {
    if AgeRestricted(desc.ratings, pc) then None
    else Some(a.(protocolId := ProtocolId(desc, network), desc := desc,
                 scheme := desc.scheme[..Origin.Find(desc.scheme, '?', 0)],
                 loadedUrl := UpdatedUrl(a, desc)))
  }

  function Blank(id: nat, kind: Kind, broadcast: bool, trusted: bool, desc: App, entryUrl: string, baseUrl: string)
    : AppState
  {
    AppState(id, kind, kind == HbbTV && !broadcast, broadcast, trusted, 0, desc, entryUrl, baseUrl, entryUrl, "")
  }

  /** The constructors from an AIT description. */
  function FromDescription(id: nat, kind: Kind, desc: App, service: Triplet, network: bool, params: string,
                           broadcast: bool, trusted: bool, pc: Parental): Option<AppState>
  {
    var baseUrl := BaseUrl(desc, service, network);
    Update(Blank(id, kind, broadcast, trusted, desc, MergeUrlParams(baseUrl, desc.location, params), baseUrl),
           desc, network, pc)
  }

  /** The constructors from a URL. They leave the AIT description unset, so it is whatever `unset` is. */
  function FromUrl(id: nat, kind: Kind, url: string, unset: App): AppState {
    Blank(id, kind, false, false, unset, url, url).(scheme := SchemeOf(url))
  }

  /** `HbbTVApp::TransitionToBroadcastRelated`; `None` is a refusal. */
  function ToBroadcast(a: AppState): Option<AppState> {
    if && (a.desc.controlCode == CONTROL_AUTOSTART || a.desc.controlCode == CONTROL_PRESENT)
       && a.protocolId == PROTOCOL_HTTP
       && Origin.InBoundaries(a.entryUrl, a.baseUrl, a.desc.boundaries)
       && Origin.InBoundaries(a.loadedUrl, a.baseUrl, a.desc.boundaries)
    then Some(a.(broadcast := true)) else None
  }

  // ---------------------------------------------------------------- the manager

  datatype Manager = Manager(
    apps: map<nat, AppState>, hbbtvId: nat, opId: nat,
    current: Triplet, previous: Triplet,
    firstAit: bool, aitPid: uint16, network: bool,
    completed: Option<seq<App>>,
    lastId: nat)

  /** What the session callback answers during one call. */
  datatype Env = Env(pc: Parental, version: Version, instanceInCurrent: bool)

  const INITIAL := Manager(map[], NO_APP, NO_APP, INVALID_TRIPLET, INVALID_TRIPLET, false, 0, false, None, 0)

  predicate Running(s: Manager) {
    s.hbbtvId in s.apps
  }

  function Kill(s: Manager, id: nat): Manager {
    if (s.hbbtvId == id || s.opId == id) && id in s.apps then
      var t := s.(apps := s.apps - {id});
      if id == s.hbbtvId then t.(hbbtvId := NO_APP) else t.(opId := NO_APP)
    else s
  }

  function RunApp(s: Manager, app: AppState): Manager {
    var slot := if app.kind == OpApp then s.opId else s.hbbtvId;
    var t := s.(apps := (s.apps - {slot})[app.id := app]);
    var u := if !app.broadcast && !IsInvalid(s.current)
             then t.(current := INVALID_TRIPLET, previous := INVALID_TRIPLET) else t;
    if app.kind == OpApp then u.(opId := app.id) else u.(hbbtvId := app.id)
  }

  predicate MakesOpApp(desc: App, runAsOpApp: bool) {
    runAsOpApp || desc.appUsage == OPAPP_PRIVILEGED || desc.appUsage == OPAPP_OPSPECIFIC
  }

  /** Creates and runs an application from a description; the second result is its id or `NO_APP`. */
  function CreateFromDescription(s: Manager, desc: App, params: string, broadcast: bool, trusted: bool,
                                 runAsOpApp: bool, env: Env): (Manager, nat)
  {
    var id := s.lastId + 1;
    var t := s.(lastId := id);
    var app := if MakesOpApp(desc, runAsOpApp)
               then FromDescription(id, OpApp, desc, INVALID_TRIPLET, s.network, "", true, false, env.pc)
               else FromDescription(id, HbbTV, desc, s.current, s.network, params, broadcast, trusted, env.pc);
    if app.None? then (t, NO_APP) else (RunApp(t, app.value), id)
  }

  function CreateFromUrl(s: Manager, url: string, runAsOpApp: bool, unset: App): (Manager, nat) {
    var id := s.lastId + 1;
    var t := s.(lastId := id);
    if url == "" then (t, NO_APP)
    else (RunApp(t, FromUrl(id, if runAsOpApp then OpApp else HbbTV, url, unset)), id)
  }

  /** Starts the autostart application; the second result is the id of what was started or `NO_APP`. */
  function Autostart(s: Manager, env: Env): (Manager, nat) {
    if !s.firstAit || s.completed.None? then (s, NO_APP)
    else
      var pick := AutoStartIndex(s.completed.value, env.pc, env.version, |s.completed.value|);
      if pick.None? then (s, NO_APP)
      else CreateFromDescription(s, s.completed.value[pick.value], "", true, false, false, env)
  }

  function AutostartIfIdle(s: Manager, env: Env): Manager {
    if Running(s) then s else Autostart(s, env).0
  }

  /** Replaces the running HbbTV application by its updated self, or kills it when the update is refused. */
  function UpdateOrKill(s: Manager, desc: App, env: Env): Manager
    requires Running(s)
  {
    match Update(s.apps[s.hbbtvId], desc, s.network, env.pc)
    case Some(a) => s.(apps := s.apps[s.hbbtvId := a])
    case None => Kill(s, s.hbbtvId)
  }

  function TransitionOrKill(s: Manager, env: Env): Manager
    requires Running(s) && s.completed.Some?
  {
    var a := s.apps[s.hbbtvId];
    var found := Find(s.completed.value, a.desc.orgId, a.desc.appId);
    if a.desc.appId == 0 || a.desc.orgId == 0 || found.None? then Kill(s, s.hbbtvId)
    else
      var b := Update(a, found.value, s.network, env.pc);
      if b.None? || ToBroadcast(b.value).None? then Kill(s, s.hbbtvId)
      else s.(apps := s.apps[s.hbbtvId := ToBroadcast(b.value).value])
  }

  /** The first table of a service: what becomes of an application that was already running. */
  function KeepOnFirstAit(s: Manager, env: Env): Manager
    requires Running(s) && s.completed.Some?
  {
    var a := s.apps[s.hbbtvId];
    if !a.broadcast then TransitionOrKill(s, env)
    else if a.desc.desc.serviceBound && !env.instanceInCurrent then Kill(s, s.hbbtvId)
    else
      var found := Find(s.completed.value, a.desc.orgId, a.desc.appId);
      if found.None? || found.value.controlCode == CONTROL_KILL || !HasTransport(found.value, a.protocolId)
      then Kill(s, s.hbbtvId)
      else UpdateOrKill(s, found.value, env)
  }

  /** An application that was kept is updated once more. */
  function RefreshOrAutostart(s: Manager, env: Env): Manager
    requires s.completed.Some?
  {
    if !Running(s) then Autostart(s, env).0
    else
      var a := s.apps[s.hbbtvId];
      var found := Find(s.completed.value, a.desc.orgId, a.desc.appId);
      if found.Some? then UpdateOrKill(s, found.value, env) else s
  }

  function AitReceived(s: Manager, env: Env): Manager {
    if s.completed.None? then s
    else RefreshOrAutostart(if Running(s) then KeepOnFirstAit(s, env) else s, env)
  }

  /** The branch of the source marked as unexpected. */
  predicate Unexpected(s: Manager) {
    s.completed.Some? && Running(s) && !s.apps[s.hbbtvId].broadcast
  }

  function KeepOnUpdate(s: Manager, env: Env): Manager
    requires Running(s) && s.completed.Some?
  {
    var a := s.apps[s.hbbtvId];
    var found := Find(s.completed.value, a.desc.orgId, a.desc.appId);
    if found.None? || !HasTransport(found.value, a.protocolId) || found.value.controlCode == CONTROL_KILL
    then Kill(s, s.hbbtvId)
    else UpdateOrKill(s, found.value, env)
  }

  function AitUpdated(s: Manager, env: Env): Manager {
    if s.completed.None? || Unexpected(s) then s
    else AutostartIfIdle(if Running(s) then KeepOnUpdate(s, env) else s, env)
  }

  /** A table has been completed: the first of the service, or an update. */
  function NewTable(s: Manager, table: seq<App>, env: Env): Manager {
    var t := s.(completed := Some(table), firstAit := true);
    if s.firstAit then AitUpdated(t, env) else AitReceived(t, env)
  }

  // ---------------------------------------------------------------- events

  /** What a table under way becomes when the PID changes. */
  function OnPid(s: Manager, pid: uint16): Manager {
    if pid == s.aitPid then s
    else s.(aitPid := pid, completed := if s.aitPid != 0 then None else s.completed)
  }

  /** `table` is the table that the section completes, if it completes one. */
  function AitSection(s: Manager, pid: uint16, serviceId: uint16, table: Option<seq<App>>, env: Env): Manager {
    if serviceId != s.current.serviceId then s
    else if table.None? then OnPid(s, pid)
    else NewTable(OnPid(s, pid), table.value, env)
  }

  function WithScheme(apps: seq<App>, scheme: string): seq<App> {
    seq(|apps|, i requires 0 <= i < |apps| => apps[i].(scheme := scheme))
  }

  /** `parsed` is what the XML parser makes of the document; the second result is an id only if one was created. */
  function XmlAit(s: Manager, parsed: seq<App>, dvbi: bool, scheme: string, env: Env): Manager {
    if parsed == [] then s
    else
      var table := WithScheme(parsed, scheme);
      if dvbi then NewTable(s.(aitPid := XML_PID), table, env)
      else
        var pick := AutoStartIndex(table, env.pc, env.version, |table|);
        if pick.None? then s else CreateFromDescription(s, table[pick.value], "", false, false, false, env).0
  }

  datatype Locator =
    | AitLocator(orgId: nat, appId: uint16, params: string)
    | PageLocator(xml: Option<seq<App>>)
    | UnknownLocator

  /** `locator` is what the URL refers to, `unset` the memory a URL application is created in. */
  function CreateApplication(s: Manager, caller: nat, url: string, runAsOpApp: bool, locator: Locator, unset: App,
                             env: Env): Manager
  {
    if caller !in s.apps || url == "" || (runAsOpApp && s.apps[caller].kind != OpApp) then s
    else
      match locator
      case UnknownLocator => s
      case AitLocator(orgId, appId, params) =>
        if s.completed.None? then s
        else
          var found := Find(s.completed.value, orgId, appId);
          if found.None? then s
          else CreateFromDescription(s, found.value, params, true, false, runAsOpApp, env).0
      case PageLocator(xml) =>
        if xml.Some? then XmlAit(s, xml.value, false, SCHEME_1_1, env)
        else CreateFromUrl(s, url, runAsOpApp, unset).0
  }

  function RunningAppExited(s: Manager, env: Env): Manager {
    if IsInvalid(s.current) then s else Autostart(s, env).0
  }

  function DestroyApplication(s: Manager, caller: nat, env: Env): Manager {
    var t := if caller == NO_APP then RunningAppExited(Kill(s, caller), env) else s;
    if caller in t.apps then RunningAppExited(Kill(t, caller), env) else t
  }

  function RunTeletext(s: Manager, env: Env): Manager {
    if s.completed.None? then s
    else
      var i := TeletextIndex(s.completed.value);
      if i == |s.completed.value| then s
      else CreateFromDescription(s, s.completed.value[i], "", true, false, false, env).0
  }

  function BroadcastStopped(s: Manager): Manager {
    var t := s.(firstAit := false, aitPid := 0, completed := None, current := INVALID_TRIPLET,
                  previous := INVALID_TRIPLET);
    if Running(t) then t.(apps := t.apps[t.hbbtvId := t.apps[t.hbbtvId].(broadcast := false)]) else t
  }

  function ChannelChanged(s: Manager, service: Triplet): Manager {
    s.(firstAit := false, aitPid := 0, completed := None, previous := s.current, current := service)
  }

  function AitTimeout(s: Manager): Manager {
    Kill(s, s.hbbtvId)
  }

  /** Whether the failure of `id` makes the manager look its application up in the table. */
  predicate LooksUp(s: Manager, id: nat) {
    && !IsInvalid(s.current) && id in s.apps && s.completed.Some?
    && s.apps[id].desc.appId != 0 && s.apps[id].desc.orgId != 0
  }

  /** The source dereferences the result of the look-up without testing it. */
  predicate DereferencesNull(s: Manager, id: nat) {
    LooksUp(s, id) && Find(s.completed.value, s.apps[id].desc.orgId, s.apps[id].desc.appId).None?
  }

  function MarkFailed(s: Manager, id: nat): Manager
    requires id in s.apps && !DereferencesNull(s, id)
  {
    if LooksUp(s, id) then
      var apps := s.completed.value;
      var i := FindIndex(apps, s.apps[id].desc.orgId, s.apps[id].desc.appId);
      s.(completed := Some(apps[i := SetFailed(apps[i], s.apps[id].protocolId)]))
    else s
  }

  /** The second result is the id of the application started instead, or `NO_APP`. */
  function LoadFailed(s: Manager, id: nat, env: Env): (Manager, nat)
    requires !DereferencesNull(s, id)
  {
    if IsInvalid(s.current) || id !in s.apps then (s, NO_APP)
    else Autostart(Kill(MarkFailed(s, id), id), env)
  }

  function PageChanged(s: Manager, id: nat, url: string): Manager {
    if id in s.apps then s.(apps := s.apps[id := s.apps[id].(loadedUrl := url)]) else s
  }

  /** Showing and hiding; an OpApp is in the background, which it cannot leave. */
  function SetForeground(s: Manager, id: nat, foreground: bool): Manager {
    if id in s.apps && s.apps[id].kind == HbbTV
    then s.(apps := s.apps[id := s.apps[id].(foreground := foreground)])
    else s
  }
}
