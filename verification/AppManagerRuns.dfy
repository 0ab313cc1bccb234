/** What holds in every state the application manager can reach. */
module AppManagerRuns {
  import opened Common
  import opened AitModel
  import opened AitLookup
  import opened AppManagerModel

  // ---------------------------------------------------------------- runs

  datatype Event =
    | AitSectionEvent(pid: uint16, serviceId: uint16, table: Option<seq<App>>)
    | XmlAitEvent(parsed: seq<App>, dvbi: bool, scheme: string)
    | CreateEvent(caller: nat, url: string, runAsOpApp: bool, locator: Locator, unset: App)
    | DestroyEvent(caller: nat)
    | TeletextEvent
    | BroadcastStoppedEvent
    | ChannelChangedEvent(service: Triplet)
    | AitTimeoutEvent
    | NetworkEvent(available: bool)
    | LoadFailedEvent(id: nat)
    | PageChangedEvent(id: nat, url: string)
    | SetForegroundEvent(id: nat, foreground: bool)

  /** Services passed in are real ones: no part of the triplet is the reserved 0xFFFF. */
  predicate Real(e: Event) {
    && (e.AitSectionEvent? ==> e.serviceId != INVALID_ID)
    && (e.ChannelChangedEvent? ==> !IsInvalid(e.service))
  }

  /** `None` is a null pointer dereference. */
  function Step(s: Manager, e: Event, env: Env): Option<Manager> {
    match e
    case AitSectionEvent(pid, serviceId, table) => Some(AitSection(s, pid, serviceId, table, env))
    case XmlAitEvent(parsed, dvbi, scheme) => Some(XmlAit(s, parsed, dvbi, scheme, env))
    case CreateEvent(caller, url, runAsOpApp, locator, unset) =>
      Some(CreateApplication(s, caller, url, runAsOpApp, locator, unset, env))
    case DestroyEvent(caller) => Some(DestroyApplication(s, caller, env))
    case TeletextEvent => Some(RunTeletext(s, env))
    case BroadcastStoppedEvent => Some(BroadcastStopped(s))
    case ChannelChangedEvent(service) => Some(ChannelChanged(s, service))
    case AitTimeoutEvent => Some(AitTimeout(s))
    case NetworkEvent(available) => Some(s.(network := available))
    case LoadFailedEvent(id) => if DereferencesNull(s, id) then None else Some(LoadFailed(s, id, env).0)
    case PageChangedEvent(id, url) => Some(PageChanged(s, id, url))
    case SetForegroundEvent(id, foreground) => Some(SetForeground(s, id, foreground))
  }

  datatype Call = Call(event: Event, env: Env)

  function Run(s: Manager, calls: seq<Call>): Option<Manager>
    decreases |calls|
  {
    if calls == [] then Some(s)
    else
      var t := Step(s, calls[0].event, calls[0].env);
      if t.None? then None else Run(t.value, calls[1..])
  }

  predicate AllReal(calls: seq<Call>) {
    forall i | 0 <= i < |calls| :: Real(calls[i].event)
  }

  // ---------------------------------------------------------------- invariants

  /** The keys of the map are the non-zero slots, and each slot holds an application of its kind under its own id. */
  predicate SlotsAgree(s: Manager) {
    && (s.hbbtvId != NO_APP ==> s.hbbtvId in s.apps && s.hbbtvId != s.opId)
    && (s.opId != NO_APP ==> s.opId in s.apps)
    && (forall id | id in s.apps ::
          && id != NO_APP && id <= s.lastId
          && (id == s.hbbtvId || id == s.opId)
          && s.apps[id].id == id
          && s.apps[id].kind == if id == s.hbbtvId then HbbTV else OpApp)
  }

  predicate Signalled(apps: seq<App>, a: AppState) {
    Find(apps, a.desc.orgId, a.desc.appId).Some?
  }

  /** The running HbbTV application obeys the table of the selected service. */
  predicate Safe(s: Manager) {
    !IsInvalid(s.current) && s.completed.Some? && Running(s) ==>
      s.apps[s.hbbtvId].broadcast && Signalled(s.completed.value, s.apps[s.hbbtvId])
  }

  /** Application ids only grow, and an id that is not in use is never used again. */
  predicate Follows(s: Manager, t: Manager) {
    s.lastId <= t.lastId && forall id | id in t.apps :: id in s.apps || s.lastId < id
  }

  predicate Inv(s: Manager) {
    && SlotsAgree(s)
    && (s.current == INVALID_TRIPLET || !IsInvalid(s.current))
    && (s.completed.Some? ==> s.firstAit)
    && (!IsInvalid(s.current) && s.firstAit && Running(s) ==> s.apps[s.hbbtvId].broadcast)
    && Safe(s)
  }

  // ---------------------------------------------------------------- each operation keeps them

  lemma FindOfEntry(apps: seq<App>, i: nat)
    requires i < |apps|
    ensures Find(apps, apps[i].orgId, apps[i].appId).Some?
  {
  }

  lemma FoundHasIds(apps: seq<App>, orgId: nat, appId: uint16)
    ensures
      var f := Find(apps, orgId, appId);
      f.Some? ==> f.value.orgId == orgId && f.value.appId == appId && f.value in apps
  {
  }

  lemma KillKeeps(s: Manager, id: nat)
    requires Inv(s)
    ensures Inv(Kill(s, id))
    ensures id == s.hbbtvId ==> !Running(Kill(s, id))
    ensures Follows(s, Kill(s, id))
  {
  }

  /** Which applications are there once `app` runs, and in which slots. */
  lemma RunAppMap(s: Manager, app: AppState)
    requires SlotsAgree(s) && app.id == s.lastId + 1
    ensures
      var t := RunApp(s.(lastId := app.id), app);
      && t.lastId == app.id
      && t.apps.Keys == {app.id} + (s.apps.Keys - {if app.kind == OpApp then s.opId else s.hbbtvId})
      && t.apps[app.id] == app
      && (forall k | k in t.apps && k != app.id :: k in s.apps && t.apps[k] == s.apps[k])
      && t.hbbtvId == (if app.kind == OpApp then s.hbbtvId else app.id)
      && t.opId == (if app.kind == OpApp then app.id else s.opId)
  {
  }

  lemma RunAppSlots(s: Manager, app: AppState)
    requires SlotsAgree(s) && app.id == s.lastId + 1
    ensures
      var t := RunApp(s.(lastId := app.id), app);
      && SlotsAgree(t) && Follows(s, t)
      && (app.kind == HbbTV ==> Running(t) && t.apps[t.hbbtvId] == app)
      && (app.kind == OpApp ==> t.hbbtvId == s.hbbtvId)
      && (app.kind == OpApp && Running(s) ==> Running(t) && t.apps[t.hbbtvId] == s.apps[s.hbbtvId])
  {
    hide RunApp;
    RunAppMap(s, app);
  }

  /** Starting an application keeps the invariant if a broadcast one is signalled in the table there is. */
  lemma RunAppKeeps(s: Manager, app: AppState)
    requires Inv(s) && app.id == s.lastId + 1
    requires s.completed.Some? && app.kind == HbbTV && app.broadcast ==> Signalled(s.completed.value, app)
    ensures Inv(RunApp(s.(lastId := app.id), app))
    ensures Follows(s, RunApp(s.(lastId := app.id), app))
  {
    RunAppSlots(s, app);
    RunAppFields(s, app);
    hide RunApp, Signalled, Follows;
    var t := RunApp(s.(lastId := app.id), app);
    assert app.kind == OpApp && Running(t) ==> Running(s) by {
      assert SlotsAgree(s) && SlotsAgree(t);
    }
    hide SlotsAgree;
  }

  lemma RunAppFields(s: Manager, app: AppState)
    ensures
      var t := RunApp(s.(lastId := app.id), app);
      && t.completed == s.completed && t.firstAit == s.firstAit && t.aitPid == s.aitPid && t.network == s.network
      && t.current == (if !app.broadcast && !IsInvalid(s.current) then INVALID_TRIPLET else s.current)
      && t.previous == (if !app.broadcast && !IsInvalid(s.current) then INVALID_TRIPLET else s.previous)
  {
  }

  lemma DescriptionFields(id: nat, kind: Kind, desc: App, service: Triplet, network: bool, params: string,
                          broadcast: bool, trusted: bool, pc: Parental)
    ensures
      var r := FromDescription(id, kind, desc, service, network, params, broadcast, trusted, pc);
      && (r.None? <==> AgeRestricted(desc.ratings, pc))
      && (r.Some? ==>
            var a := r.value;
            a.id == id && a.kind == kind && a.broadcast == broadcast && a.desc == desc
            && a.protocolId == ProtocolId(desc, network))
  {
    hide MergeUrlParams, BaseUrl, UpdatedUrl, AgeRestricted, ProtocolId;
  }

  lemma CreateKeeps(s: Manager, desc: App, params: string, broadcast: bool, trusted: bool, runAsOpApp: bool, env: Env)
    requires Inv(s)
    requires broadcast && s.completed.Some? ==> Find(s.completed.value, desc.orgId, desc.appId).Some?
    ensures Inv(CreateFromDescription(s, desc, params, broadcast, trusted, runAsOpApp, env).0)
    ensures CreateFromDescription(s, desc, params, broadcast, trusted, runAsOpApp, env).1 == NO_APP
            <==> AgeRestricted(desc.ratings, env.pc)
    ensures Follows(s, CreateFromDescription(s, desc, params, broadcast, trusted, runAsOpApp, env).0)
  {
    hide FromDescription, AgeRestricted, ProtocolId, RunApp, MakesOpApp;
    var id := s.lastId + 1;
    DescriptionFields(id, OpApp, desc, INVALID_TRIPLET, s.network, "", true, false, env.pc);
    DescriptionFields(id, HbbTV, desc, s.current, s.network, params, broadcast, trusted, env.pc);
    var app := if MakesOpApp(desc, runAsOpApp)
               then FromDescription(id, OpApp, desc, INVALID_TRIPLET, s.network, "", true, false, env.pc)
               else FromDescription(id, HbbTV, desc, s.current, s.network, params, broadcast, trusted, env.pc);
    if app.Some? {
      RunAppKeeps(s, app.value);
    }
  }

  lemma AutostartKeeps(s: Manager, env: Env)
    requires Inv(s)
    ensures Inv(Autostart(s, env).0)
    ensures Follows(s, Autostart(s, env).0)
  {
    hide CreateFromDescription;
    if s.firstAit && s.completed.Some? {
      var pick := AutoStartIndex(s.completed.value, env.pc, env.version, |s.completed.value|);
      if pick.Some? {
        FindOfEntry(s.completed.value, pick.value);
        CreateKeeps(s, s.completed.value[pick.value], "", true, false, false, env);
      }
    }
  }

  /** The invariant but for the running HbbTV application, which the new table has not been applied to yet. */
  predicate Pending(s: Manager) {
    && SlotsAgree(s)
    && (s.current == INVALID_TRIPLET || !IsInvalid(s.current))
    && s.completed.Some? && s.firstAit
  }

  lemma KillSettles(s: Manager)
    requires Pending(s) && Running(s)
    ensures Inv(Kill(s, s.hbbtvId)) && Pending(Kill(s, s.hbbtvId)) && !Running(Kill(s, s.hbbtvId))
    ensures Follows(s, Kill(s, s.hbbtvId))
  {
  }

  lemma UpdateSettles(s: Manager, env: Env)
    requires Pending(s) && Running(s) && s.apps[s.hbbtvId].broadcast
    requires Signalled(s.completed.value, s.apps[s.hbbtvId])
    ensures
      var a := s.apps[s.hbbtvId];
      var t := UpdateOrKill(s, Find(s.completed.value, a.desc.orgId, a.desc.appId).value, env);
      Inv(t) && Pending(t) && Follows(s, t)
  {
    hide UpdatedUrl, ProtocolId, AgeRestricted, Find;
    var a := s.apps[s.hbbtvId];
    FoundHasIds(s.completed.value, a.desc.orgId, a.desc.appId);
    KillSettles(s);
  }

  lemma TransitionSettles(s: Manager, env: Env)
    requires Pending(s) && Running(s)
    ensures Inv(TransitionOrKill(s, env)) && Pending(TransitionOrKill(s, env))
    ensures Follows(s, TransitionOrKill(s, env))
  {
    hide UpdatedUrl, ProtocolId, AgeRestricted, Find;
    var a := s.apps[s.hbbtvId];
    FoundHasIds(s.completed.value, a.desc.orgId, a.desc.appId);
    KillSettles(s);
  }

  lemma ReceivedKeeps(s: Manager, env: Env)
    requires Pending(s)
    ensures Inv(AitReceived(s, env))
    ensures Follows(s, AitReceived(s, env))
  {
    hide UpdateOrKill, TransitionOrKill, Autostart, Find, Kill, HasTransport;
    var t := if Running(s) then KeepOnFirstAit(s, env) else s;
    assert Inv(t) && Pending(t) && Follows(s, t) by {
      if Running(s) {
        var a := s.apps[s.hbbtvId];
        KillSettles(s);
        if !a.broadcast {
          TransitionSettles(s, env);
        } else if Signalled(s.completed.value, a) {
          UpdateSettles(s, env);
        }
      }
    }
    if !Running(t) {
      AutostartKeeps(t, env);
    } else if t.apps[t.hbbtvId].broadcast && Signalled(t.completed.value, t.apps[t.hbbtvId]) {
      UpdateSettles(t, env);
    } else {
      RefreshOutsideBroadcast(t, env);
    }
  }

  /** Without a selected service nothing is required of the running application. */
  lemma RefreshOutsideBroadcast(s: Manager, env: Env)
    requires Inv(s) && Pending(s) && Running(s) && IsInvalid(s.current)
    ensures Inv(RefreshOrAutostart(s, env))
    ensures Follows(s, RefreshOrAutostart(s, env))
  {
    hide UpdatedUrl, ProtocolId, AgeRestricted, Find;
    KillSettles(s);
  }

  lemma UpdatedKeeps(s: Manager, env: Env)
    requires Pending(s)
    requires !IsInvalid(s.current) && Running(s) ==> s.apps[s.hbbtvId].broadcast
    ensures Inv(AitUpdated(s, env))
    ensures Follows(s, AitUpdated(s, env))
  {
    hide UpdateOrKill, Autostart, Find, Kill, HasTransport;
    if !Unexpected(s) {
      var t := if Running(s) then KeepOnUpdate(s, env) else s;
      assert Inv(t) && Follows(s, t) by {
        if Running(s) {
          KillSettles(s);
          if Signalled(s.completed.value, s.apps[s.hbbtvId]) {
            UpdateSettles(s, env);
          }
        }
      }
      AutostartKeeps(t, env);
    }
  }

  lemma NewTableKeeps(s: Manager, table: seq<App>, env: Env)
    requires Inv(s)
    ensures Inv(NewTable(s, table, env))
    ensures Follows(s, NewTable(s, table, env))
  {
    hide AitUpdated, AitReceived;
    var t := s.(completed := Some(table), firstAit := true);
    if s.firstAit {
      UpdatedKeeps(t, env);
    } else {
      ReceivedKeeps(t, env);
    }
  }

  lemma XmlAitKeeps(s: Manager, parsed: seq<App>, dvbi: bool, scheme: string, env: Env)
    requires Inv(s)
    ensures Inv(XmlAit(s, parsed, dvbi, scheme, env))
    ensures Follows(s, XmlAit(s, parsed, dvbi, scheme, env))
  {
    hide NewTable, CreateFromDescription, AutoStartIndex;
    if parsed != [] {
      var table := WithScheme(parsed, scheme);
      if dvbi {
        NewTableKeeps(s.(aitPid := XML_PID), table, env);
      } else {
        var pick := AutoStartIndex(table, env.pc, env.version, |table|);
        if pick.Some? {
          CreateKeeps(s, table[pick.value], "", false, false, false, env);
        }
      }
    }
  }

  lemma CreateApplicationKeeps(s: Manager, caller: nat, url: string, runAsOpApp: bool, locator: Locator,
                               unset: App, env: Env)
    requires Inv(s)
    ensures Inv(CreateApplication(s, caller, url, runAsOpApp, locator, unset, env))
    ensures Follows(s, CreateApplication(s, caller, url, runAsOpApp, locator, unset, env))
  {
    hide CreateFromDescription, XmlAit, Find, RunApp;
    match locator {
      case UnknownLocator =>
      case AitLocator(orgId, appId, params) =>
        if s.completed.Some? {
          var found := Find(s.completed.value, orgId, appId);
          if found.Some? {
            FoundHasIds(s.completed.value, orgId, appId);
            CreateKeeps(s, found.value, params, true, false, runAsOpApp, env);
          }
        }
      case PageLocator(xml) =>
        if xml.Some? {
          XmlAitKeeps(s, xml.value, false, SCHEME_1_1, env);
        } else {
          RunAppKeeps(s, FromUrl(s.lastId + 1, if runAsOpApp then OpApp else HbbTV, url, unset));
        }
    }
  }

  lemma ExitKeeps(s: Manager, env: Env)
    requires Inv(s)
    ensures Inv(RunningAppExited(s, env))
    ensures Follows(s, RunningAppExited(s, env))
  {
    AutostartKeeps(s, env);
  }

  lemma DestroyKeeps(s: Manager, caller: nat, env: Env)
    requires Inv(s)
    ensures Inv(DestroyApplication(s, caller, env))
    ensures Follows(s, DestroyApplication(s, caller, env))
  {
    hide RunningAppExited, Kill;
    KillKeeps(s, caller);
    ExitKeeps(Kill(s, caller), env);
    var t := if caller == NO_APP then RunningAppExited(Kill(s, caller), env) else s;
    KillKeeps(t, caller);
    ExitKeeps(Kill(t, caller), env);
  }

  lemma TeletextKeeps(s: Manager, env: Env)
    requires Inv(s)
    ensures Inv(RunTeletext(s, env))
    ensures Follows(s, RunTeletext(s, env))
  {
    hide CreateFromDescription;
    if s.completed.Some? {
      var i := TeletextIndex(s.completed.value);
      if i < |s.completed.value| {
        FindOfEntry(s.completed.value, i);
        CreateKeeps(s, s.completed.value[i], "", true, false, false, env);
      }
    }
  }

  /** Marking a transport as failed does not change which ids are signalled. */
  lemma MarkingKeepsIds(apps: seq<App>, i: nat, protocolId: uint16, orgId: nat, appId: uint16)
    requires i < |apps|
    ensures FindIndex(apps[i := SetFailed(apps[i], protocolId)], orgId, appId) == FindIndex(apps, orgId, appId)
  {
    var marked := apps[i := SetFailed(apps[i], protocolId)];
    assert forall k | 0 <= k < |apps| :: HasIds(marked[k], orgId, appId) <==> HasIds(apps[k], orgId, appId);
    var a, b := FindIndex(apps, orgId, appId), FindIndex(marked, orgId, appId);
    assert a < |apps| ==> HasIds(marked[a], orgId, appId);
    assert b < |apps| ==> HasIds(apps[b], orgId, appId);
  }

  lemma MarkFailedKeeps(s: Manager, id: nat)
    requires Inv(s) && id in s.apps && !DereferencesNull(s, id)
    ensures Inv(MarkFailed(s, id))
    ensures Follows(s, MarkFailed(s, id))
  {
    if LooksUp(s, id) && Running(s) {
      var apps, a := s.completed.value, s.apps[s.hbbtvId];
      var i := FindIndex(apps, s.apps[id].desc.orgId, s.apps[id].desc.appId);
      MarkingKeepsIds(apps, i, s.apps[id].protocolId, a.desc.orgId, a.desc.appId);
    }
  }

  lemma LoadFailedKeeps(s: Manager, id: nat, env: Env)
    requires Inv(s) && !DereferencesNull(s, id)
    ensures Inv(LoadFailed(s, id, env).0)
    ensures Follows(s, LoadFailed(s, id, env).0)
  {
    hide Kill, MarkFailed, Autostart;
    if !IsInvalid(s.current) && id in s.apps {
      MarkFailedKeeps(s, id);
      KillKeeps(MarkFailed(s, id), id);
      AutostartKeeps(Kill(MarkFailed(s, id), id), env);
    }
  }

  lemma StopKeeps(s: Manager)
    requires Inv(s)
    ensures Inv(BroadcastStopped(s)) && Follows(s, BroadcastStopped(s))
  {
  }

  lemma SectionKeeps(s: Manager, pid: uint16, serviceId: uint16, table: Option<seq<App>>, env: Env)
    requires Inv(s) && serviceId != INVALID_ID
    ensures Inv(AitSection(s, pid, serviceId, table, env)) && Follows(s, AitSection(s, pid, serviceId, table, env))
  {
    hide NewTable, Find;
    if serviceId == s.current.serviceId && table.Some? {
      NewTableKeeps(OnPid(s, pid), table.value, env);
    }
  }

  lemma FieldsKeep(s: Manager, service: Triplet, available: bool)
    requires Inv(s) && !IsInvalid(service)
    ensures Inv(ChannelChanged(s, service)) && Follows(s, ChannelChanged(s, service))
    ensures Inv(s.(network := available)) && Follows(s, s.(network := available))
  {
    hide Find;
  }

  lemma PageKeeps(s: Manager, id: nat, url: string, foreground: bool)
    requires Inv(s)
    ensures Inv(PageChanged(s, id, url)) && Follows(s, PageChanged(s, id, url))
    ensures Inv(SetForeground(s, id, foreground)) && Follows(s, SetForeground(s, id, foreground))
  {
    hide Find;
  }

  lemma StepKeeps(s: Manager, e: Event, env: Env)
    requires Inv(s) && Real(e)
    ensures Step(s, e, env).Some? ==> Inv(Step(s, e, env).value)
    ensures Step(s, e, env).Some? ==> Follows(s, Step(s, e, env).value)
  {
    hide Inv, Follows, AitSection, XmlAit, CreateApplication, DestroyApplication, RunTeletext, AitTimeout, LoadFailed,
      BroadcastStopped, ChannelChanged, PageChanged, SetForeground;
    match e {
      case AitSectionEvent(pid, serviceId, table) => SectionKeeps(s, pid, serviceId, table, env);
      case XmlAitEvent(parsed, dvbi, scheme) => XmlAitKeeps(s, parsed, dvbi, scheme, env);
      case CreateEvent(caller, url, runAsOpApp, locator, unset) =>
        CreateApplicationKeeps(s, caller, url, runAsOpApp, locator, unset, env);
      case DestroyEvent(caller) => DestroyKeeps(s, caller, env);
      case TeletextEvent => TeletextKeeps(s, env);
      case BroadcastStoppedEvent => StopKeeps(s);
      case ChannelChangedEvent(service) => FieldsKeep(s, service, false);
      case AitTimeoutEvent => TimeoutKeeps(s);
      case NetworkEvent(available) => FieldsKeep(s, Triplet(1, 1, 1), available);
      case LoadFailedEvent(id) =>
        if !DereferencesNull(s, id) {
          LoadFailedKeeps(s, id, env);
        }
      case PageChangedEvent(id, url) => PageKeeps(s, id, url, false);
      case SetForegroundEvent(id, foreground) => PageKeeps(s, id, "", foreground);
    }
  }

  lemma TimeoutKeeps(s: Manager)
    requires Inv(s)
    ensures Inv(AitTimeout(s)) && Follows(s, AitTimeout(s))
  {
    KillKeeps(s, s.hbbtvId);
  }

  lemma {:induction false} RunKeeps(s: Manager, calls: seq<Call>)
    requires Inv(s) && AllReal(calls)
    ensures Run(s, calls).Some? ==> Inv(Run(s, calls).value) && Follows(s, Run(s, calls).value)
    decreases |calls|
  {
    hide Step, Inv;
    if calls != [] {
      assert Real(calls[0].event);
      StepKeeps(s, calls[0].event, calls[0].env);
      if Step(s, calls[0].event, calls[0].env).Some? {
        RunKeeps(Step(s, calls[0].event, calls[0].env).value, calls[1..]);
      }
    }
  }

  // ---------------------------------------------------------------- whole runs

  /**
   * Whole-run safety. After any sequence of calls, while a service is selected and its table is held, the
   * running HbbTV application is broadcast-related and signalled in that table; the slots agree with the map.
   */
  lemma EveryRunIsSafe(calls: seq<Call>)
    requires AllReal(calls)
    ensures Run(INITIAL, calls).Some? ==> Safe(Run(INITIAL, calls).value) && SlotsAgree(Run(INITIAL, calls).value)
  {
    assert Inv(INITIAL);
    RunKeeps(INITIAL, calls);
  }

  /** An id that has been given out and is no longer running never comes back. */
  lemma IdsAreNeverReused(before: seq<Call>, after: seq<Call>, id: nat)
    requires AllReal(before) && AllReal(after)
    requires Run(INITIAL, before).Some? && Run(Run(INITIAL, before).value, after).Some?
    ensures
      var s := Run(INITIAL, before).value;
      id <= s.lastId && id !in s.apps ==> id !in Run(s, after).value.apps
  {
    assert Inv(INITIAL);
    RunKeeps(INITIAL, before);
    RunKeeps(Run(INITIAL, before).value, after);
  }

  /** A section of the selected service never meets an application that is not broadcast-related. */
  lemma SectionsNeverMeetTheUnexpected(s: Manager, pid: uint16, serviceId: uint16, table: seq<App>)
    requires Inv(s) && s.firstAit
    requires serviceId == s.current.serviceId && serviceId != INVALID_ID
    ensures !Unexpected(OnPid(s, pid).(completed := Some(table)))
  {
  }

  /** Only the OpApp can make the manager dereference null, and it does when the new table does not signal it. */
  lemma NullDereferenceExactlyWhen(s: Manager, id: nat)
    requires Inv(s)
    ensures DereferencesNull(s, id) <==>
            id == s.opId != NO_APP && LooksUp(s, id) && !Signalled(s.completed.value, s.apps[id])
  {
  }

  const SAMPLE_OPAPP := App(1, 1, CONTROL_AUTOSTART,
                            [Transport(PROTOCOL_HTTP, 0, false, Triplet(0, 0, 0), 0, "http://a/", [], false)],
                            "", [], AppDesc(3, 0, false, [Profile(0, 1, 0, 0)], []),
                            0, [], [], [], "", OPAPP_PRIVILEGED)

  /** It can happen: an OpApp from a DVB-I table, a channel change, a table without it, and its page fails to load. */
  lemma NullDereferenceIsReachable(env: Env)
    requires env.version == Version(1, 7, 1)
    ensures
      var calls := [Call(XmlAitEvent([SAMPLE_OPAPP], true, ""), env),
                    Call(ChannelChangedEvent(Triplet(1, 1, 1)), env),
                    Call(AitSectionEvent(5, 1, Some([])), env),
                    Call(LoadFailedEvent(1), env)];
      AllReal(calls) && Run(INITIAL, calls) == None
  {
    hide MergeUrlParams, BaseUrl, UpdatedUrl;
    var calls := [Call(XmlAitEvent([SAMPLE_OPAPP], true, ""), env),
                  Call(ChannelChangedEvent(Triplet(1, 1, 1)), env),
                  Call(AitSectionEvent(5, 1, Some([])), env),
                  Call(LoadFailedEvent(1), env)];
    var table := WithScheme([SAMPLE_OPAPP], "");
    assert table[0] == SAMPLE_OPAPP;
    assert Supported(SAMPLE_OPAPP.desc.profiles, env.version) by {
      assert AtMost(SAMPLE_OPAPP.desc.profiles[0], env.version);
    }
    assert HasViable(SAMPLE_OPAPP.transports) by { assert Viable(SAMPLE_OPAPP.transports[0]); }
    var pick := AutoStartIndex(table, env.pc, env.version, 1);
    assert Eligible(table[0], env.pc, env.version);
    assert pick == Some(0);
    var s1 := Step(INITIAL, calls[0].event, env).value;
    DescriptionFields(1, OpApp, SAMPLE_OPAPP, INVALID_TRIPLET, false, "", true, false, env.pc);
    assert s1.opId == 1 && 1 in s1.apps && s1.apps[1].desc == SAMPLE_OPAPP && s1.hbbtvId == NO_APP;
    var s2 := Step(s1, calls[1].event, env).value;
    assert AutoStartIndex([], env.pc, env.version, 0) == None;
    var s3 := Step(s2, calls[2].event, env).value;
    assert s3.completed == Some([]) && s3.apps == s1.apps;
    assert DereferencesNull(s3, 1);
    assert calls[1..][1..][1..] == [calls[3]];
    assert Run(s3, [calls[3]]) == None;
    assert Run(s2, calls[1..][1..]) == Run(s3, calls[1..][1..][1..]);
    assert Run(s1, calls[1..]) == Run(s2, calls[1..][1..]);
  }

  /**
   * A creation is refused exactly for parental reasons, and then only an id is used up. Otherwise the application
   * takes its slot, the other slot is as it was, and the service is deselected exactly when the application is not
   * broadcast-related; the table, the flag, the PID and the network are as they were.
   */
  lemma CreationExactlyWhen(s: Manager, desc: App, params: string, broadcast: bool, trusted: bool,
                             runAsOpApp: bool, env: Env)
    requires Inv(s)
    ensures
      var (t, id) := CreateFromDescription(s, desc, params, broadcast, trusted, runAsOpApp, env);
      var op := MakesOpApp(desc, runAsOpApp);
      if AgeRestricted(desc.ratings, env.pc) then id == NO_APP && t == s.(lastId := s.lastId + 1)
      else
        && id == t.lastId == s.lastId + 1 && id in t.apps && t.apps[id].desc == desc
        && t.apps[id].kind == (if op then OpApp else HbbTV) && t.apps[id].broadcast == (op || broadcast)
        && (if op then t.opId == id && t.hbbtvId == s.hbbtvId else t.hbbtvId == id && t.opId == s.opId)
        && (forall k | k != id && k != (if op then s.opId else s.hbbtvId) ::
              (k in t.apps <==> k in s.apps) && (k in s.apps ==> t.apps[k] == s.apps[k]))
        && (var deselects := !op && !broadcast && !IsInvalid(s.current);
            && t.current == (if deselects then INVALID_TRIPLET else s.current)
            && t.previous == (if deselects then INVALID_TRIPLET else s.previous))
        && t.completed == s.completed && t.firstAit == s.firstAit && t.aitPid == s.aitPid && t.network == s.network
  {
    hide FromDescription, AgeRestricted, ProtocolId, MakesOpApp, RunApp;
    var id := s.lastId + 1;
    var op := MakesOpApp(desc, runAsOpApp);
    DescriptionFields(id, OpApp, desc, INVALID_TRIPLET, s.network, "", true, false, env.pc);
    DescriptionFields(id, HbbTV, desc, s.current, s.network, params, broadcast, trusted, env.pc);
    var app := if op then FromDescription(id, OpApp, desc, INVALID_TRIPLET, s.network, "", true, false, env.pc)
               else FromDescription(id, HbbTV, desc, s.current, s.network, params, broadcast, trusted, env.pc);
    if app.Some? {
      RunAppMap(s, app.value);
      RunAppFields(s, app.value);
    }
  }
}
