/**
 * The objects of the application manager. Every method changes its fields step by step, as the source does,
 * and is proved to compute the function of the same operation in `AppManagerModel`.
 */
module AppManager {
  import opened Common
  import opened AitModel
  import opened AitLookup
  import opened AitMask
  import opened AitSections
  import opened AppManagerModel
  import Origin

  class HbbTVApp {
    const id: nat
    const kind: Kind
    var foreground: bool
    var broadcast: bool
    var trusted: bool
    var protocolId: uint16
    var desc: App
    var entryUrl: string
    var baseUrl: string
    var loadedUrl: string
    var scheme: string

    function State(): AppState
      reads this
    {
      AppState(id, kind, foreground, broadcast, trusted, protocolId, desc, entryUrl, baseUrl, loadedUrl, scheme)
    }

    /** The object a map entry stands for. */
    constructor Of(a: AppState)
      ensures State() == a
    {
      id, kind, foreground, broadcast, trusted := a.id, a.kind, a.foreground, a.broadcast, a.trusted;
      protocolId, desc, entryUrl, baseUrl := a.protocolId, a.desc, a.entryUrl, a.baseUrl;
      loadedUrl, scheme := a.loadedUrl, a.scheme;
    }

    constructor Url(id: nat, kind: Kind, url: string, unset: App)
      ensures State() == FromUrl(id, kind, url, unset)
    {
      this.id, this.kind := id, kind;
      loadedUrl, entryUrl, baseUrl := url, url, url;
      foreground := kind == HbbTV;
      broadcast, trusted, protocolId := false, false, 0;
      desc := unset;
      scheme := SchemeOf(url);
    }

    /** The fields that are set before the first `Update`. */
    constructor Described(id: nat, kind: Kind, desc: App, service: Triplet, network: bool, params: string,
                          broadcast: bool, trusted: bool)
      ensures
        var baseUrl := BaseUrl(desc, service, network);
        State() == Blank(id, kind, broadcast, trusted, desc, MergeUrlParams(baseUrl, desc.location, params), baseUrl)
    {
      this.id, this.kind, this.desc := id, kind, desc;
      this.broadcast, this.trusted, protocolId := broadcast, trusted, 0;
      baseUrl := BaseUrl(desc, service, network);
      entryUrl := MergeUrlParams(BaseUrl(desc, service, network), desc.location, params);
      loadedUrl := MergeUrlParams(BaseUrl(desc, service, network), desc.location, params);
      foreground := kind == HbbTV && !broadcast;
      scheme := "";
    }

    /** Returns false where the source throws. */
    method Update(desc: App, network: bool, pc: Parental) returns (ok: bool)
      modifies this
      ensures ok == AppManagerModel.Update(old(State()), desc, network, pc).Some?
      ensures State() == if ok then AppManagerModel.Update(old(State()), desc, network, pc).value else old(State())
    {
      var restricted := IsAgeRestricted(desc.ratings, pc);
      if restricted {
        return false;
      }
      protocolId := ExtractProtocolId(desc, network);
      this.desc := desc;
      scheme := desc.scheme;
      if scheme != "" {
        var index := Origin.Find(desc.scheme, '?', 0);
        scheme := desc.scheme[..index];
        loadedUrl := MergeUrlParams("", loadedUrl, ParamsOf(if scheme == "" then SCHEME_1_1 else scheme));
        if index < |desc.scheme| {
          loadedUrl := MergeUrlParams("", entryUrl, desc.scheme[index..]);
        } else {
          assert desc.scheme[..index] == desc.scheme;
        }
      }
      ok := true;
    }

    method TransitionToBroadcastRelated() returns (ok: bool)
      modifies this
      ensures ok == ToBroadcast(old(State())).Some?
      ensures State() == if ok then ToBroadcast(old(State())).value else old(State())
    {
      if desc.controlCode != CONTROL_AUTOSTART && desc.controlCode != CONTROL_PRESENT {
        return false;
      }
      if protocolId == PROTOCOL_HTTP {
        var inside := Origin.CheckBoundaries(entryUrl, baseUrl, desc.boundaries);
        if !inside {
          return false;
        }
        inside := Origin.CheckBoundaries(loadedUrl, baseUrl, desc.boundaries);
        if !inside {
          return false;
        }
      } else {
        return false;
      }
      broadcast := true;
      ok := true;
    }

    method TransitionToBroadcastIndependent() returns (ok: bool)
      modifies this
      ensures ok && State() == old(State()).(broadcast := false)
    {
      broadcast := false;
      ok := true;
    }

    method SetState(foreground: bool)
      modifies this
      ensures State() == if kind == HbbTV then old(State()).(foreground := foreground) else old(State())
    {
      if kind == HbbTV {
        this.foreground := foreground;
      }
    }
  }

  /** The table a section completes, if it does. */
  ghost function TableOf(partial: Option<Table>, data: seq<byte>, s: Section): Option<seq<App>>
    requires IsSection(s) && IsNewsIsAddable(partial, s)
  {
    if data == EncodeSection(s) && Completes(partial, s) then Some(AddSection(partial, s).apps) else None
  }

  function AppsOf(t: Option<Table>): Option<seq<App>> {
    if t.Some? then Some(t.value.apps) else None
  }

  /**
   * The map owns its applications exclusively, so it is a map of their states: a method takes an application
   * out, lets the object change itself, and puts it back.
   */
  class ApplicationManager {
    const ait: Ait
    var apps: map<nat, AppState>
    var hbbtvAppId: nat
    var opAppId: nat
    var currentService: Triplet
    var previousService: Triplet
    var receivedFirstAit: bool
    var aitPid: uint16
    var networkAvailable: bool
    var lastId: nat

    ghost function State(): Manager
      reads this, ait
    {
      Manager(apps, hbbtvAppId, opAppId, currentService, previousService, receivedFirstAit, aitPid,
              networkAvailable, AppsOf(ait.completed), lastId)
    }

    ghost predicate Valid()
      reads this, ait
    {
      ait.Valid() && (ait.completed.Some? ==> IsTable(ait.completed.value))
    }

    constructor ()
      ensures Valid() && fresh(ait) && State() == INITIAL
    {
      ait := new Ait();
      apps := map[];
      hbbtvAppId, opAppId := NO_APP, NO_APP;
      currentService, previousService := INVALID_TRIPLET, INVALID_TRIPLET;
      receivedFirstAit, aitPid, networkAvailable, lastId := false, 0, false, 0;
    }

    method KillRunningApp(appId: nat)
      requires Valid()
      modifies this
      ensures Valid() && State() == Kill(old(State()), appId)
    {
      if (hbbtvAppId == appId || opAppId == appId) && appId in apps {
        apps := apps - {appId};
        if appId == hbbtvAppId {
          hbbtvAppId := NO_APP;
        } else {
          opAppId := NO_APP;
        }
      }
    }

    method RunApp(app: HbbTVApp)
      requires Valid()
      modifies this
      ensures Valid() && State() == AppManagerModel.RunApp(old(State()), app.State())
    {
      var slot := hbbtvAppId;
      if app.kind == OpApp {
        slot := opAppId;
      }
      apps := apps - {slot};
      if !app.broadcast && !IsInvalid(currentService) {
        currentService, previousService := INVALID_TRIPLET, INVALID_TRIPLET;
      }
      if app.kind == OpApp {
        opAppId := app.id;
      } else {
        hbbtvAppId := app.id;
      }
      apps := apps[app.id := app.State()];
    }

    /** The object made from a description; `None` when its constructor throws. */
    method Make(id: nat, kind: Kind, desc: App, service: Triplet, params: string, isBroadcast: bool, isTrusted: bool,
                pc: Parental)
      returns (app: HbbTVApp?)
      ensures app != null ==> fresh(app)
      ensures
        var r := FromDescription(id, kind, desc, service, networkAvailable, params, isBroadcast, isTrusted, pc);
        && (app != null <==> r.Some?)
        && (app != null ==> app.State() == r.value)
    {
      hide AppManagerModel.Update, MergeUrlParams, BaseUrl;
      var made := new HbbTVApp.Described(id, kind, desc, service, networkAvailable, params, isBroadcast, isTrusted);
      var ok := made.Update(desc, networkAvailable, pc);
      app := if ok then made else null;
    }

    /** Returns the id of the new application, or `NO_APP`. */
    method CreateAndRunApp(desc: App, params: string, isBroadcast: bool, isTrusted: bool, runAsOpApp: bool, env: Env)
      returns (id: nat)
      requires Valid()
      modifies this
      ensures Valid()
      ensures (State(), id)
              == CreateFromDescription(old(State()), desc, params, isBroadcast, isTrusted, runAsOpApp, env)
    {
      hide FromDescription, AppManagerModel.RunApp;
      lastId := lastId + 1;
      var app: HbbTVApp?;
      if runAsOpApp || desc.appUsage == OPAPP_PRIVILEGED || desc.appUsage == OPAPP_OPSPECIFIC {
        app := Make(lastId, OpApp, desc, INVALID_TRIPLET, "", true, false, env.pc);
      } else {
        app := Make(lastId, HbbTV, desc, currentService, params, isBroadcast, isTrusted, env.pc);
      }
      if app == null {
        return NO_APP;
      }
      id := lastId;
      RunApp(app);
    }

    method CreateAndRunUrl(url: string, runAsOpApp: bool, unset: App) returns (id: nat)
      requires Valid()
      modifies this
      ensures Valid() && (State(), id) == CreateFromUrl(old(State()), url, runAsOpApp, unset)
    {
      lastId := lastId + 1;
      if url == "" {
        return NO_APP;
      }
      var app := new HbbTVApp.Url(lastId, if runAsOpApp then OpApp else HbbTV, url, unset);
      id := app.id;
      RunApp(app);
    }

    method OnPerformBroadcastAutostart(env: Env) returns (id: nat)
      requires Valid()
      modifies this
      ensures Valid() && (State(), id) == Autostart(old(State()), env)
    {
      if !receivedFirstAit || ait.completed.None? {
        return NO_APP;
      }
      var table := ait.completed.value.apps;
      var pick := AutoStartApp(table, env.pc, env.version);
      if pick.Some? {
        id := CreateAndRunApp(table[pick.value], "", true, false, false, env);
      } else {
        id := NO_APP;
      }
    }

    method UpdateRunningApp(desc: App, env: Env) returns (ok: bool)
      requires Valid() && hbbtvAppId in apps
      modifies this
      ensures Valid()
      ensures
        var a := AppManagerModel.Update(old(apps[hbbtvAppId]), desc, networkAvailable, env.pc);
        ok == a.Some?
        && State() == if ok then old(State()).(apps := old(apps)[old(hbbtvAppId) := a.value]) else old(State())
    {
      var app := new HbbTVApp.Of(apps[hbbtvAppId]);
      ok := app.Update(desc, networkAvailable, env.pc);
      apps := apps[hbbtvAppId := app.State()];
    }

    method TransitionRunningAppToBroadcastRelated(env: Env) returns (ok: bool)
      requires Valid() && hbbtvAppId in apps && ait.completed.Some?
      modifies this
      ensures Valid()
      ensures hbbtvAppId == old(hbbtvAppId) && hbbtvAppId in apps
      ensures if ok then State() == TransitionOrKill(old(State()), env)
              else Kill(State(), hbbtvAppId) == TransitionOrKill(old(State()), env)
    {
      hide AppManagerModel.Update, ToBroadcast, FindIndex;
      ghost var before := apps;
      var desc := apps[hbbtvAppId].desc;
      if desc.appId == 0 || desc.orgId == 0 {
        return false;
      }
      var table := ait.completed.value.apps;
      var index := FindApp(table, desc.orgId, desc.appId);
      if index == |table| {
        return false;
      }
      ok := UpdateRunningApp(table[index], env);
      if ok {
        var app := new HbbTVApp.Of(apps[hbbtvAppId]);
        ok := app.TransitionToBroadcastRelated();
        apps := apps[hbbtvAppId := app.State()];
      }
      assert apps - {hbbtvAppId} == before - {hbbtvAppId};
      assert apps == before[hbbtvAppId := apps[hbbtvAppId]];
    }

    method TransitionRunningAppToBroadcastIndependent() returns (ok: bool)
      requires Valid()
      modifies this
      ensures Valid() && ok
      ensures State() == if Running(old(State()))
                         then old(State()).(
                            apps := old(apps)[old(hbbtvAppId) := old(apps[hbbtvAppId]).(broadcast := false)])
                         else old(State())
    {
      if hbbtvAppId in apps {
        var app := new HbbTVApp.Of(apps[hbbtvAppId]);
        ok := app.TransitionToBroadcastIndependent();
        apps := apps[hbbtvAppId := app.State()];
      } else {
        ok := true;
      }
    }

    /** What becomes of a broadcast-related application when the first table of a service arrives. */
    method KeepOnFirst(env: Env)
      requires Valid() && hbbtvAppId in apps && apps[hbbtvAppId].broadcast && ait.completed.Some?
      modifies this
      ensures Valid() && State() == KeepOnFirstAit(old(State()), env)
    {
      hide AppManagerModel.Update, FindIndex;
      var table := ait.completed.value.apps;
      var desc := apps[hbbtvAppId].desc;
      if desc.desc.serviceBound && !env.instanceInCurrent {
        KillRunningApp(hbbtvAppId);
      } else {
        var index := FindApp(table, desc.orgId, desc.appId);
        if index == |table| {
          KillRunningApp(hbbtvAppId);
        } else if table[index].controlCode == CONTROL_KILL {
          KillRunningApp(hbbtvAppId);
        } else {
          var carried := AppHasTransport(table[index], apps[hbbtvAppId].protocolId);
          if !carried {
            KillRunningApp(hbbtvAppId);
          } else {
            var ok := UpdateRunningApp(table[index], env);
            if !ok {
              KillRunningApp(hbbtvAppId);
            }
          }
        }
      }
    }

    method OnSelectedServiceAitReceived(env: Env)
      requires Valid()
      modifies this
      ensures Valid() && State() == AitReceived(old(State()), env)
    {
      hide AppManagerModel.Update, FindIndex, Kill, TransitionOrKill, Autostart;
      if ait.completed.Some? {
        var table := ait.completed.value.apps;
        if hbbtvAppId in apps {
          if apps[hbbtvAppId].broadcast {
            KeepOnFirst(env);
          } else {
            var ok := TransitionRunningAppToBroadcastRelated(env);
            if !ok {
              KillRunningApp(hbbtvAppId);
            }
          }
        }
        if hbbtvAppId !in apps {
          var _ := OnPerformBroadcastAutostart(env);
        } else {
          var desc := apps[hbbtvAppId].desc;
          var index := FindApp(table, desc.orgId, desc.appId);
          if index < |table| {
            var ok := UpdateRunningApp(table[index], env);
            if !ok {
              KillRunningApp(hbbtvAppId);
            }
          }
        }
      }
    }

    method OnSelectedServiceAitTimeout()
      requires Valid()
      modifies this
      ensures Valid() && State() == AitTimeout(old(State()))
    {
      KillRunningApp(hbbtvAppId);
    }

    method OnSelectedServiceAitUpdated(env: Env)
      requires Valid()
      modifies this
      ensures Valid() && State() == AitUpdated(old(State()), env)
    {
      hide AppManagerModel.Update, FindIndex, Kill, Autostart;
      if ait.completed.None? {
        return;
      }
      var table := ait.completed.value.apps;
      if hbbtvAppId in apps {
        if !apps[hbbtvAppId].broadcast {
          return;
        }
        var desc := apps[hbbtvAppId].desc;
        var index := FindApp(table, desc.orgId, desc.appId);
        if index == |table| {
          KillRunningApp(hbbtvAppId);
        } else {
          var carried := AppHasTransport(table[index], apps[hbbtvAppId].protocolId);
          if !carried {
            KillRunningApp(hbbtvAppId);
          } else if table[index].controlCode == CONTROL_KILL {
            KillRunningApp(hbbtvAppId);
          } else {
            var ok := UpdateRunningApp(table[index], env);
            if !ok {
              KillRunningApp(hbbtvAppId);
            }
          }
        }
      }
      if hbbtvAppId !in apps {
        var _ := OnPerformBroadcastAutostart(env);
      }
    }

    /** `s` is the section `data` prints, if its length fields agree. */
    method ProcessAitSection(pid: uint16, serviceId: uint16, data: seq<byte>, ghost s: Section, env: Env)
      requires Valid() && IsSection(s)
      requires |data| > 2 && |data| == Read12(data[1], data[2]) + 3 ==> data == EncodeSection(s)
      requires IsNewsIsAddable(ait.partial, s) && IsNewsIsAddable(None, s)
      modifies this, ait
      ensures Valid()
      ensures
        var kept := if pid != old(aitPid) && old(aitPid) != 0 then None else old(ait.partial);
        State() == AitSection(old(State()), pid, serviceId, TableOf(kept, data, s), env)
    {
      hide AitUpdated, AitReceived, IsSection, EncodeSection, AddSection, IsNews, CanAdd, Read12;
      if serviceId != currentService.serviceId {
        return;
      }
      if pid != aitPid {
        if aitPid != 0 {
          ait.Clear();
        }
        aitPid := pid;
      }
      var updated := ait.ProcessSection(data, s);
      if !updated {
        return;
      }
      if !receivedFirstAit {
        receivedFirstAit := true;
        OnSelectedServiceAitReceived(env);
      } else {
        OnSelectedServiceAitUpdated(env);
      }
    }

    method ProcessXmlAit(parsed: seq<App>, isDvbi: bool, scheme: string, env: Env)
      requires Valid() && |parsed| <= MAX_APPS
      modifies this, ait
      ensures Valid() && State() == XmlAit(old(State()), parsed, isDvbi, scheme, env)
    {
      hide AitUpdated, AitReceived, AutoStartIndex, CreateFromDescription;
      if parsed == [] {
        return;
      }
      var table := parsed;
      for index := 0 to |parsed|
        invariant |table| == |parsed|
        invariant forall k | 0 <= k < index :: table[k] == parsed[k].(scheme := scheme)
        invariant forall k | index <= k < |parsed| :: table[k] == parsed[k]
      {
        table := table[index := table[index].(scheme := scheme)];
      }
      assert table == WithScheme(parsed, scheme);
      if isDvbi {
        ait.Clear();
        aitPid := XML_PID;
        ait.ApplyAitTable(Table(EmptyMask(), 0, table, true));
        if !receivedFirstAit {
          receivedFirstAit := true;
          OnSelectedServiceAitReceived(env);
        } else {
          OnSelectedServiceAitUpdated(env);
        }
      } else {
        var pick := AutoStartApp(table, env.pc, env.version);
        if pick.Some? {
          var _ := CreateAndRunApp(table[pick.value], "", false, false, false, env);
        }
      }
    }

    method CreateApplication(caller: nat, url: string, runAsOpApp: bool, locator: Locator, unset: App, env: Env)
      requires Valid()
      requires locator.PageLocator? && locator.xml.Some? ==> |locator.xml.value| <= MAX_APPS
      modifies this, ait
      ensures Valid()
      ensures State() == AppManagerModel.CreateApplication(old(State()), caller, url, runAsOpApp, locator, unset, env)
    {
      hide CreateFromDescription, XmlAit, AppManagerModel.RunApp, FindIndex;
      if caller !in apps || url == "" || (runAsOpApp && apps[caller].kind != OpApp) {
        return;
      }
      match locator {
        case UnknownLocator =>
        case AitLocator(orgId, appId, params) =>
          if ait.completed.None? {
            return;
          }
          var table := ait.completed.value.apps;
          var index := FindApp(table, orgId, appId);
          if index < |table| {
            var _ := CreateAndRunApp(table[index], params, true, false, runAsOpApp, env);
          }
        case PageLocator(xml) =>
          if xml.Some? {
            ProcessXmlAit(xml.value, false, SCHEME_1_1, env);
          } else {
            var _ := CreateAndRunUrl(url, runAsOpApp, unset);
          }
      }
    }

    method OnRunningAppExited(env: Env)
      requires Valid()
      modifies this
      ensures Valid() && State() == RunningAppExited(old(State()), env)
    {
      hide Autostart;
      if !IsInvalid(currentService) {
        var _ := OnPerformBroadcastAutostart(env);
      }
    }

    method DestroyApplication(caller: nat, env: Env)
      requires Valid()
      modifies this
      ensures Valid() && State() == AppManagerModel.DestroyApplication(old(State()), caller, env)
    {
      hide RunningAppExited, Kill;
      if caller == NO_APP {
        KillRunningApp(caller);
        OnRunningAppExited(env);
      }
      if caller !in apps {
        return;
      }
      KillRunningApp(caller);
      OnRunningAppExited(env);
    }

    method RunTeletextApplication(env: Env)
      requires Valid()
      modifies this
      ensures Valid() && State() == RunTeletext(old(State()), env)
    {
      hide CreateFromDescription, TeletextIndex;
      if ait.completed.None? {
        return;
      }
      var table := ait.completed.value.apps;
      var index := TeletextApp(table);
      if index == |table| {
        return;
      }
      var _ := CreateAndRunApp(table[index], "", true, false, false, env);
    }

    method OnBroadcastStopped()
      requires Valid()
      modifies this, ait
      ensures Valid() && State() == BroadcastStopped(old(State()))
    {
      receivedFirstAit := false;
      aitPid := 0;
      ait.Clear();
      currentService, previousService := INVALID_TRIPLET, INVALID_TRIPLET;
      var ok := TransitionRunningAppToBroadcastIndependent();
      if !ok {
        // The source would kill the application here, but the transition is never refused.
        assert false;
      }
    }

    method OnChannelChanged(service: Triplet)
      requires Valid()
      modifies this, ait
      ensures Valid() && State() == ChannelChanged(old(State()), service)
    {
      receivedFirstAit := false;
      aitPid := 0;
      ait.Clear();
      previousService := currentService;
      currentService := service;
    }

    method OnNetworkAvailabilityChanged(available: bool)
      requires Valid()
      modifies this
      ensures Valid() && State() == old(State()).(network := available)
    {
      networkAvailable := available;
    }

    /**
     * `None` is the null pointer that the source dereferences when it finds nothing, before anything has changed;
     * `NullDereferenceExactlyWhen` says when that is.
     */
    method OnLoadApplicationFailed(appId: nat, env: Env) returns (started: Option<nat>)
      requires Valid()
      modifies this, ait
      ensures Valid()
      ensures started.None? <==> DereferencesNull(old(State()), appId)
      ensures started.None? ==> State() == old(State())
      ensures started.Some? ==> (State(), started.value) == LoadFailed(old(State()), appId, env)
    {
      hide Autostart, Kill, FindIndex;
      if IsInvalid(currentService) {
        return Some(NO_APP);
      }
      if appId !in apps {
        return Some(NO_APP);
      }
      var desc := apps[appId].desc;
      if ait.completed.Some? && desc.appId != 0 && desc.orgId != 0 {
        var table := ait.completed.value;
        var index := FindApp(table.apps, desc.orgId, desc.appId);
        if index == |table.apps| {
          return None;
        }
        var app := AppSetTransportFailedToLoad(table.apps[index], apps[appId].protocolId);
        ait.ReplaceCompleted(table.(apps := table.apps[index := app]));
      }
      KillRunningApp(appId);
      var id := OnPerformBroadcastAutostart(env);
      started := Some(id);
    }

    method OnApplicationPageChanged(appId: nat, url: string)
      requires Valid()
      modifies this
      ensures Valid() && State() == PageChanged(old(State()), appId, url)
    {
      if appId in apps {
        apps := apps[appId := apps[appId].(loadedUrl := url)];
      }
    }

    /** `ShowApplication` and `HideApplication`. */
    method SetApplicationForeground(appId: nat, foreground: bool)
      requires Valid()
      modifies this
      ensures Valid() && State() == SetForeground(old(State()), appId, foreground)
    {
      if appId in apps {
        var app := new HbbTVApp.Of(apps[appId]);
        app.SetState(foreground);
        apps := apps[appId := app.State()];
      }
    }
  }
}
