/** Every call of the application manager, and what whole runs of calls gain from it. */
module AppCalls {
  import opened Common
  import opened AitModel
  import opened AitLookup
  import opened AppManagerModel
  import opened AppManagerRuns
  import opened AppOutcomes

  predicate NoService(t: Triplet) {
    t.originalNetworkId == 0xFFFF || t.transportStreamId == 0xFFFF || t.serviceId == 0xFFFF
  }

  /** `marked` is `apps` with the transports of one protocol failed, in the first entry with these ids. */
  predicate IsMarked(apps: seq<App>, marked: seq<App>, orgId: nat, appId: uint16, protocolId: uint16) {
    && |marked| == |apps|
    && forall i | 0 <= i < |apps| ::
         if HasIds(apps[i], orgId, appId) && forall k | 0 <= k < i :: !HasIds(apps[k], orgId, appId) then
           && marked[i] == apps[i].(transports := marked[i].transports)
           && |marked[i].transports| == |apps[i].transports|
           && forall k | 0 <= k < |apps[i].transports| ::
                var t := apps[i].transports[k];
                marked[i].transports[k] == if t.protocolId == protocolId then t.(failedToLoad := true) else t
         else marked[i] == apps[i]
  }

  /** A failed application is marked in the table there is and killed, and the best one left is started. */
  ghost predicate FollowsFailure(s: Manager, t: Manager, id: nat, env: Env) {
    if NoService(s.current) || id !in s.apps then t == s
    else
      var desc := s.apps[id].desc;
      if s.completed.Some? && desc.appId != 0 && desc.orgId != 0 then
        exists marked ::
          && IsMarked(s.completed.value, marked, desc.orgId, desc.appId, s.apps[id].protocolId)
          && StartsTheBest(Without(s.(completed := Some(marked)), id), t, env)
      else StartsTheBest(Without(s, id), t, env)
  }

  lemma MarkingOutcome(s: Manager, id: nat)
    requires id in s.apps && LooksUp(s, id) && !DereferencesNull(s, id)
    ensures
      var desc := s.apps[id].desc;
      exists marked ::
        && IsMarked(s.completed.value, marked, desc.orgId, desc.appId, s.apps[id].protocolId)
        && MarkFailed(s, id) == s.(completed := Some(marked))
  {
    var apps, desc := s.completed.value, s.apps[id].desc;
    var i := FindIndex(apps, desc.orgId, desc.appId);
    var marked := apps[i := SetFailed(apps[i], s.apps[id].protocolId)];
    assert IsMarked(apps, marked, desc.orgId, desc.appId, s.apps[id].protocolId);
  }

  lemma FailureOutcome(s: Manager, id: nat, env: Env)
    requires SlotsAgree(s) && !DereferencesNull(s, id)
    ensures FollowsFailure(s, LoadFailed(s, id, env).0, id, env)
  {
    if !NoService(s.current) && id in s.apps {
      var u := MarkFailed(s, id);
      KilledIsGone(u, id);
      AutostartOutcome(Without(u, id), env);
      if LooksUp(s, id) {
        MarkingOutcome(s, id);
      }
    }
    hide StartsTheBest, Without, Kill, MarkFailed, IsMarked, Find, Autostart;
  }

  /** A new table, the first of a service or a further one. */
  ghost predicate FollowsTable(s: Manager, t: Manager, table: seq<App>, env: Env) {
    if s.firstAit then FollowsUpdate(s, t, table, env) else FollowsFirst(s, t, table, env)
  }

  lemma TableOutcome(s: Manager, table: seq<App>, env: Env)
    requires SlotsAgree(s)
    ensures FollowsTable(s, NewTable(s, table, env), table, env)
  {
    hide FollowsUpdate, FollowsFirst, NewTable;
    if s.firstAit {
      UpdatedTableOutcome(s, table, env);
    } else {
      FirstTableOutcome(s, table, env);
    }
  }

  ghost predicate FollowsSection(s: Manager, t: Manager, pid: uint16, serviceId: uint16, table: Option<seq<App>>,
                                 env: Env)
  {
    if serviceId != s.current.serviceId then t == s
    else if table.Some? then FollowsTable(s.(aitPid := pid), t, table.value, env)
    else t == s.(aitPid := pid, completed := if s.aitPid == pid || s.aitPid == 0 then s.completed else None)
  }

  lemma OldTableIsForgotten(s: Manager, t: Manager, before: Option<seq<App>>, table: seq<App>, env: Env)
    ensures FollowsTable(s.(completed := before), t, table, env) <==> FollowsTable(s, t, table, env)
  {
    hide StartsTheBest, Without, IsUpdated, IsUpdatedTwice, Joins, GoesOn, Find;
    assert WithTable(s.(completed := before), table) == WithTable(s, table);
  }

  lemma SectionOutcome(s: Manager, pid: uint16, serviceId: uint16, table: Option<seq<App>>, env: Env)
    requires SlotsAgree(s)
    ensures FollowsSection(s, AitSection(s, pid, serviceId, table, env), pid, serviceId, table, env)
  {
    hide FollowsTable, NewTable;
    if serviceId == s.current.serviceId && table.Some? {
      var u := OnPid(s, pid);
      TableOutcome(u, table.value, env);
      OldTableIsForgotten(s.(aitPid := pid), NewTable(u, table.value, env), u.completed, table.value, env);
    }
  }

  predicate IsTagged(table: seq<App>, parsed: seq<App>, scheme: string) {
    |table| == |parsed| && forall i | 0 <= i < |parsed| :: table[i] == parsed[i].(scheme := scheme)
  }

  /** The best entry of an XML table is started as an application outside the service. */
  ghost predicate FollowsPage(s: Manager, t: Manager, table: seq<App>, env: Env) {
    if exists i | 0 <= i < |table| :: Eligible(table[i], env.pc, env.version) then
      exists i | 0 <= i < |table| ::
        && IsAutoStart(table, env.pc, env.version, i)
        && Creates(s, t, Request(table[i], "", false, false, false), env)
    else t == s
  }

  ghost predicate FollowsXml(s: Manager, t: Manager, parsed: seq<App>, dvbi: bool, scheme: string, env: Env) {
    if parsed == [] then t == s
    else
      exists table ::
        && IsTagged(table, parsed, scheme)
        && if dvbi then FollowsTable(s.(aitPid := 0xFFFF), t, table, env) else FollowsPage(s, t, table, env)
  }

  lemma XmlOutcome(s: Manager, parsed: seq<App>, dvbi: bool, scheme: string, env: Env)
    requires SlotsAgree(s)
    ensures FollowsXml(s, XmlAit(s, parsed, dvbi, scheme, env), parsed, dvbi, scheme, env)
  {
    hide FollowsTable, NewTable, Creates, Eligible, IsAutoStart, CreateFromDescription;
    if parsed != [] {
      var table := WithScheme(parsed, scheme);
      assert IsTagged(table, parsed, scheme);
      if dvbi {
        TableOutcome(s.(aitPid := XML_PID), table, env);
      } else {
        PickIsBest(table, env);
        var pick := AutoStartIndex(table, env.pc, env.version, |table|);
        if pick.Some? {
          CreationOutcome(s, Request(table[pick.value], "", false, false, false), env);
        }
        assert FollowsPage(s, XmlAit(s, parsed, dvbi, scheme, env), table, env);
      }
    }
  }

  /** Only a running application can ask for another one, and only an operator application for another such one. */
  ghost predicate FollowsCreation(s: Manager, t: Manager, caller: nat, url: string, asOperators: bool, locator: Locator,
                                  unset: App, env: Env)
  {
    if caller !in s.apps || url == "" || (asOperators && s.apps[caller].kind == HbbTV) then t == s
    else
      match locator
      case UnknownLocator => t == s
      case AitLocator(orgId, appId, params) =>
        if s.completed.Some? && Find(s.completed.value, orgId, appId).Some? then
          var entry := Find(s.completed.value, orgId, appId).value;
          Creates(s, t, Request(entry, params, true, false, asOperators), env)
        else t == s
      case PageLocator(xml) =>
        if xml.Some? then FollowsXml(s, t, xml.value, false, "urn:dvb:metadata:cs:LinkedApplicationCS:2019:1.1", env)
        else CreatesFromUrl(s, t, url, asOperators, unset)
  }

  lemma CreateOutcome(s: Manager, caller: nat, url: string, asOperators: bool, locator: Locator, unset: App, env: Env)
    requires SlotsAgree(s)
    ensures
      var t := CreateApplication(s, caller, url, asOperators, locator, unset, env);
      FollowsCreation(s, t, caller, url, asOperators, locator, unset, env)
  {
    hide FollowsXml, XmlAit, Creates, CreatesFromUrl, CreateFromDescription, CreateFromUrl, Find;
    match locator {
      case UnknownLocator =>
      case AitLocator(orgId, appId, params) =>
        if s.completed.Some? && Find(s.completed.value, orgId, appId).Some? {
          var entry := Find(s.completed.value, orgId, appId).value;
          CreationOutcome(s, Request(entry, params, true, false, asOperators), env);
        }
      case PageLocator(xml) =>
        if xml.Some? {
          XmlOutcome(s, xml.value, false, SCHEME_1_1, env);
        } else {
          UrlCreationOutcome(s, url, asOperators, unset);
        }
    }
  }

  /** What an application that ends leaves to the service there is. */
  ghost predicate FollowsExit(s: Manager, t: Manager, env: Env) {
    if NoService(s.current) then t == s else StartsTheBest(s, t, env)
  }

  /** The caller is gone; the id 0 that nobody has stands for an application that has ended already. */
  ghost predicate FollowsDestruction(s: Manager, t: Manager, caller: nat, env: Env) {
    if caller == 0 then FollowsExit(s, t, env)
    else if caller in s.apps then FollowsExit(Without(s, caller), t, env)
    else t == s
  }

  lemma ExitOutcome(s: Manager, env: Env)
    ensures FollowsExit(s, RunningAppExited(s, env), env)
    ensures 0 !in s.apps ==> 0 !in RunningAppExited(s, env).apps
  {
    AutostartOutcome(s, env);
  }

  lemma DestructionOutcome(s: Manager, caller: nat, env: Env)
    requires SlotsAgree(s)
    ensures FollowsDestruction(s, DestroyApplication(s, caller, env), caller, env)
  {
    hide FollowsExit, RunningAppExited;
    if caller == 0 {
      ExitOutcome(s, env);
      assert Kill(s, 0) == s;
    } else if caller in s.apps {
      KilledIsGone(s, caller);
      ExitOutcome(Without(s, caller), env);
    }
  }

  /** The first teletext entry, as a broadcast-related application. */
  ghost predicate FollowsTeletext(s: Manager, t: Manager, env: Env) {
    if s.completed.Some? && exists i | 0 <= i < |s.completed.value| :: s.completed.value[i].usageType == 1 then
      exists i | 0 <= i < |s.completed.value| ::
        && s.completed.value[i].usageType == 1
        && (forall k | 0 <= k < i :: s.completed.value[k].usageType != 1)
        && Creates(s, t, Request(s.completed.value[i], "", true, false, false), env)
    else t == s
  }

  lemma TeletextOutcome(s: Manager, env: Env)
    ensures FollowsTeletext(s, RunTeletext(s, env), env)
  {
    hide Creates, CreateFromDescription;
    if s.completed.Some? {
      var i := TeletextIndex(s.completed.value);
      if i < |s.completed.value| {
        CreationOutcome(s, Request(s.completed.value[i], "", true, false, false), env);
      }
    }
  }

  /** Without broadcast there is no service, no table, and no broadcast-related HbbTV application. */
  predicate FollowsStop(s: Manager, t: Manager) {
    && t.current == t.previous == Triplet(0xFFFF, 0xFFFF, 0xFFFF)
    && t.completed.None? && !t.firstAit && t.aitPid == 0
    && t.hbbtvId == s.hbbtvId && t.opId == s.opId && t.network == s.network && t.lastId == s.lastId
    && t.apps.Keys == s.apps.Keys
    && forall k | k in s.apps :: t.apps[k] == if k == s.hbbtvId then s.apps[k].(broadcast := false) else s.apps[k]
  }

  /** The outcome of any call. */
  ghost predicate LeadsTo(s: Manager, e: Event, t: Manager, env: Env) {
    match e
    case AitSectionEvent(pid, serviceId, table) => FollowsSection(s, t, pid, serviceId, table, env)
    case XmlAitEvent(parsed, dvbi, scheme) => FollowsXml(s, t, parsed, dvbi, scheme, env)
    case CreateEvent(caller, url, asOperators, locator, unset) =>
      FollowsCreation(s, t, caller, url, asOperators, locator, unset, env)
    case DestroyEvent(caller) => FollowsDestruction(s, t, caller, env)
    case TeletextEvent => FollowsTeletext(s, t, env)
    case BroadcastStoppedEvent => FollowsStop(s, t)
    case ChannelChangedEvent(service) =>
      && t.current == service && t.previous == s.current
      && t.completed.None? && !t.firstAit && t.aitPid == 0
      && t == s.(current := t.current, previous := t.previous, completed := None, firstAit := false, aitPid := 0)
    case AitTimeoutEvent => t == if s.hbbtvId in s.apps then Without(s, s.hbbtvId) else s
    case NetworkEvent(available) => t == s.(network := available)
    case LoadFailedEvent(id) => FollowsFailure(s, t, id, env)
    case PageChangedEvent(id, url) =>
      && t == s.(apps := t.apps) && t.apps.Keys == s.apps.Keys
      && forall k | k in s.apps :: t.apps[k] == if k == id then s.apps[k].(loadedUrl := url) else s.apps[k]
    case SetForegroundEvent(id, foreground) =>
      && t == s.(apps := t.apps) && t.apps.Keys == s.apps.Keys
      && forall k | k in s.apps ::
           t.apps[k] == if k == id && s.apps[k].kind == HbbTV then s.apps[k].(foreground := foreground) else s.apps[k]
  }

  lemma FieldsOutcome(s: Manager, e: Event, env: Env)
    requires SlotsAgree(s)
    requires e.BroadcastStoppedEvent? || e.ChannelChangedEvent? || e.NetworkEvent? || e.PageChangedEvent?
             || e.SetForegroundEvent?
    ensures Step(s, e, env).Some? && LeadsTo(s, e, Step(s, e, env).value, env)
  {
    hide SlotsAgree;
  }

  lemma TimeoutOutcome(s: Manager)
    requires SlotsAgree(s)
    ensures AitTimeout(s) == if s.hbbtvId in s.apps then Without(s, s.hbbtvId) else s
  {
    hide Without;
    if s.hbbtvId in s.apps {
      KilledIsGone(s, s.hbbtvId);
    }
  }

  lemma StepOutcome(s: Manager, e: Event, env: Env)
    requires SlotsAgree(s) && Step(s, e, env).Some?
    ensures LeadsTo(s, e, Step(s, e, env).value, env)
  {
    hide FollowsSection, FollowsXml, FollowsCreation, FollowsDestruction, FollowsTeletext, FollowsFailure, FollowsStop;
    hide AitSection, XmlAit, CreateApplication, DestroyApplication, RunTeletext, LoadFailed, DereferencesNull,
      BroadcastStopped, ChannelChanged, PageChanged, SetForeground, AitTimeout, SlotsAgree, Without;
    match e {
      case AitSectionEvent(pid, serviceId, table) => SectionOutcome(s, pid, serviceId, table, env);
      case XmlAitEvent(parsed, dvbi, scheme) => XmlOutcome(s, parsed, dvbi, scheme, env);
      case CreateEvent(caller, url, asOperators, locator, unset) =>
        CreateOutcome(s, caller, url, asOperators, locator, unset, env);
      case DestroyEvent(caller) => DestructionOutcome(s, caller, env);
      case TeletextEvent => TeletextOutcome(s, env);
      case LoadFailedEvent(id) => FailureOutcome(s, id, env);
      case AitTimeoutEvent => TimeoutOutcome(s);
      case _ => FieldsOutcome(s, e, env);
    }
  }

  // ---------------------------------------------------------------- what follows from the outcomes

  /** After any run the next call leads to what is described, unless it dereferences null. */
  lemma EveryCallLeadsToItsOutcome(calls: seq<Call>, e: Event, env: Env)
    requires AllReal(calls) && Run(INITIAL, calls).Some? && Step(Run(INITIAL, calls).value, e, env).Some?
    ensures var s := Run(INITIAL, calls).value; LeadsTo(s, e, Step(s, e, env).value, env)
  {
    EveryRunIsSafe(calls);
    hide SlotsAgree, LeadsTo, Step, Run;
    StepOutcome(Run(INITIAL, calls).value, e, env);
  }

  /** `k` is as it was, or its slot was taken by the application that was started. */
  predicate StaysOrMakesWay(s: Manager, t: Manager, k: nat)
    requires k in s.apps
  {
    if k in t.apps then t.apps[k] == s.apps[k]
    else s.lastId + 1 in t.apps && t.apps[s.lastId + 1].kind == s.apps[k].kind
  }

  lemma StartingKeepsOthers(s: Manager, t: Manager, env: Env)
    requires SlotsAgree(s) && StartsTheBest(s, t, env)
    ensures forall k | k in t.apps :: k in s.apps || k == s.lastId + 1
    ensures forall k | k in s.apps :: StaysOrMakesWay(s, t, k)
  {
    hide IsMade, Eligible, IsAutoStart, IsOperators, StaysOrMakesWay;
    if t == s {
      AllStay(s);
    } else {
      var id := s.lastId + 1;
      var i :| 0 <= i < |s.completed.value| && TakesSlot(s, t, id, IsOperators(s.completed.value[i], false))
            && IsMade(t.apps[id], id, Request(s.completed.value[i], "", true, false, false), s.current, s.network);
      MadeHasItsKind(t.apps[id], id, Request(s.completed.value[i], "", true, false, false), s.current, s.network);
      SlotIsTaken(s, t, id, IsOperators(s.completed.value[i], false));
    }
  }

  lemma AllStay(s: Manager)
    ensures forall k | k in s.apps :: StaysOrMakesWay(s, s, k)
  {
  }

  lemma SlotIsTaken(s: Manager, t: Manager, id: nat, operators: bool)
    requires SlotsAgree(s) && id == s.lastId + 1 && TakesSlot(s, t, id, operators)
    requires t.apps[id].kind == if operators then OpApp else HbbTV
    ensures forall k | k in t.apps :: k in s.apps || k == id
    ensures forall k | k in s.apps :: StaysOrMakesWay(s, t, k)
  {
    var slot := if operators then s.opId else s.hbbtvId;
    forall k | k in s.apps ensures StaysOrMakesWay(s, t, k) {
      assert k != id;
      if k == slot {
        assert k !in t.apps && s.apps[k].kind == t.apps[id].kind;
      } else {
        assert k in t.apps && t.apps[k] == s.apps[k];
      }
    }
  }

  lemma MadeHasItsKind(a: AppState, id: nat, r: Request, service: Triplet, network: bool)
    requires IsMade(a, id, r, service, network)
    ensures a.kind == if IsOperators(r.desc, r.asOperators) then OpApp else HbbTV
  {
    hide IsMerged, IsBaseUrl, IsLinked, IsSchemeName;
  }

  lemma WithoutKeepsSlots(s: Manager, id: nat)
    requires SlotsAgree(s)
    ensures SlotsAgree(Without(s, id)) && Without(s, id).lastId == s.lastId && id !in Without(s, id).apps
    ensures forall k | k in s.apps && k != id :: k in Without(s, id).apps && Without(s, id).apps[k] == s.apps[k]
  {
  }

  /** Once `id` is taken out and the best entry started, it is gone, and no other application has changed. */
  lemma GoneForGood(s: Manager, t: Manager, id: nat, env: Env)
    requires SlotsAgree(s) && id in s.apps && StartsTheBest(Without(s, id), t, env)
    ensures id !in t.apps
    ensures forall k | k in s.apps && k != id :: StaysOrMakesWay(s, t, k)
  {
    hide SlotsAgree, StartsTheBest, Without, StaysOrMakesWay;
    WithoutKeepsSlots(s, id);
    StartingKeepsOthers(Without(s, id), t, env);
    IdsAreBelow(s, id);
    forall k | k in s.apps && k != id ensures StaysOrMakesWay(s, t, k) {
      SameToOthers(s, id, t, k);
    }
  }

  lemma IdsAreBelow(s: Manager, id: nat)
    requires SlotsAgree(s) && id in s.apps
    ensures id <= s.lastId
  {
  }

  lemma SameToOthers(s: Manager, id: nat, t: Manager, k: nat)
    requires k in s.apps && k in Without(s, id).apps && StaysOrMakesWay(Without(s, id), t, k)
    ensures StaysOrMakesWay(s, t, k)
  {
  }

  /** A further table of the service: the running application goes on exactly when its entry lets it. */
  lemma UpdateKeepsExactlyWhen(s: Manager, pid: uint16, table: seq<App>, env: Env)
    requires Inv(s) && !IsInvalid(s.current) && s.firstAit && Running(s)
    ensures
      var t := AitSection(s, pid, s.current.serviceId, Some(table), env);
      s.hbbtvId in t.apps <==> GoesOn(s.apps[s.hbbtvId], table, env.pc)
  {
    var t := AitSection(s, pid, s.current.serviceId, Some(table), env);
    SectionOutcome(s, pid, s.current.serviceId, Some(table), env);
    var u := WithTable(s.(aitPid := pid), table);
    hide AitSection, StartsTheBest, IsUpdated, GoesOn, Without;
    if !GoesOn(s.apps[s.hbbtvId], table, env.pc) {
      GoneForGood(u, t, s.hbbtvId, env);
    }
  }

  /**
   * The first table of a service: a broadcast-related application goes on exactly when its entry lets it and it is not
   * bound to another service; any other exactly when it may join the service, of which it is then a part.
   */
  lemma FirstTableKeepsExactlyWhen(s: Manager, pid: uint16, table: seq<App>, env: Env)
    requires Inv(s) && !s.firstAit && Running(s)
    ensures
      var t, a := AitSection(s, pid, s.current.serviceId, Some(table), env), s.apps[s.hbbtvId];
      && (a.broadcast ==>
            (s.hbbtvId in t.apps <==>
             (a.desc.desc.serviceBound ==> env.instanceInCurrent) && GoesOn(a, table, env.pc)))
      && (!a.broadcast ==> (s.hbbtvId in t.apps <==> Joins(a, table, s.network, env.pc)))
      && (s.hbbtvId in t.apps ==> t.apps[s.hbbtvId].broadcast && t.hbbtvId == s.hbbtvId)
  {
    var t, a := AitSection(s, pid, s.current.serviceId, Some(table), env), s.apps[s.hbbtvId];
    SectionOutcome(s, pid, s.current.serviceId, Some(table), env);
    var u := WithTable(s.(aitPid := pid), table);
    hide AitSection, StartsTheBest, IsUpdated, IsUpdatedTwice, GoesOn, Joins, Without, Signalled;
    if if a.broadcast then (a.desc.desc.serviceBound ==> env.instanceInCurrent) && GoesOn(a, table, env.pc)
       else Joins(a, table, s.network, env.pc)
    {
      JoinedIsBroadcast(a, table, s.network, env.pc, t.apps[s.hbbtvId]);
    } else {
      GoneForGood(u, t, s.hbbtvId, env);
    }
  }

  lemma JoinedIsBroadcast(a: AppState, table: seq<App>, network: bool, pc: Parental, b: AppState)
    requires Signalled(table, a) && IsUpdatedTwice(a, b, EntryOf(a, table), network)
    ensures b.broadcast
  {
    hide IsUpdated;
    var e := EntryOf(a, table);
    var c: AppState :| IsUpdated(a, c, e, network) && IsUpdated(c.(broadcast := true), b, e, network);
    UpdatedKeepsId(c.(broadcast := true), b, e, network);
  }

  /** An application that fails to load is gone, and the other one is as it was unless its slot was taken. */
  lemma FailedIsGone(s: Manager, id: nat, env: Env)
    requires Inv(s) && !IsInvalid(s.current) && id in s.apps && !DereferencesNull(s, id)
    ensures id !in LoadFailed(s, id, env).0.apps
    ensures forall k | k in s.apps && k != id :: StaysOrMakesWay(s, LoadFailed(s, id, env).0, k)
  {
    hide LoadFailed, StartsTheBest, Without, DereferencesNull, IsMarked, StaysOrMakesWay, Safe;
    FailureOutcome(s, id, env);
    var t, desc := LoadFailed(s, id, env).0, s.apps[id].desc;
    if s.completed.Some? && desc.appId != 0 && desc.orgId != 0 {
      var marked :| IsMarked(s.completed.value, marked, desc.orgId, desc.appId, s.apps[id].protocolId)
                 && StartsTheBest(Without(s.(completed := Some(marked)), id), t, env);
      var u := s.(completed := Some(marked));
      GoneForGood(u, t, id, env);
      forall k | k in s.apps && k != id ensures StaysOrMakesWay(s, t, k) {
        assert StaysOrMakesWay(u, t, k);
        SameApps(s, u, t, k);
      }
    } else {
      GoneForGood(s, t, id, env);
    }
  }

  lemma SameApps(s: Manager, u: Manager, t: Manager, k: nat)
    requires u.apps == s.apps && u.lastId == s.lastId && k in s.apps && StaysOrMakesWay(u, t, k)
    ensures StaysOrMakesWay(s, t, k)
  {
  }

  /** An application that destroys itself is gone, and the other one is as it was unless its slot was taken. */
  lemma DestroyedIsGone(s: Manager, caller: nat, env: Env)
    requires Inv(s) && caller in s.apps
    ensures caller !in DestroyApplication(s, caller, env).apps
    ensures forall k | k in s.apps && k != caller :: StaysOrMakesWay(s, DestroyApplication(s, caller, env), k)
  {
    hide DestroyApplication, StartsTheBest, Without, Safe, StaysOrMakesWay;
    var t := DestroyApplication(s, caller, env);
    DestructionOutcome(s, caller, env);
    WithoutKeepsSlots(s, caller);
    assert caller != 0;
    hide SlotsAgree;
    if StartsTheBest(Without(s, caller), t, env) {
      GoneForGood(s, t, caller, env);
    } else {
      assert t == Without(s, caller);
      forall k | k in s.apps && k != caller ensures StaysOrMakesWay(s, t, k) {
        Stays(s, t, k);
      }
    }
  }

  lemma Stays(s: Manager, t: Manager, k: nat)
    requires k in s.apps && k in t.apps && t.apps[k] == s.apps[k]
    ensures StaysOrMakesWay(s, t, k)
  {
  }
}
