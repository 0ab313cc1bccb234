/** What happens when autostarted applications fail to load one after another. */
module AppFallback {
  import opened Common
  import opened AitModel
  import opened AitLookup
  import opened AppManagerModel
  import opened AppManagerRuns

  function CountViable(ts: seq<Transport>): nat {
    if ts == [] then 0 else (if Viable(ts[0]) then 1 else 0) + CountViable(ts[1..])
  }

  /** The transports of a table that can still be tried. */
  function Untried(apps: seq<App>): nat {
    if apps == [] then 0 else CountViable(apps[0].transports) + Untried(apps[1..])
  }

  /** Every application has non-zero ids of its own. */
  predicate WellIdentified(apps: seq<App>) {
    && (forall i | 0 <= i < |apps| :: apps[i].orgId != 0 && apps[i].appId != 0)
    && (forall i, j | 0 <= i < j < |apps| :: !HasIds(apps[j], apps[i].orgId, apps[i].appId))
  }

  lemma {:induction false} FailingLowersViable(ts: seq<Transport>, protocolId: uint16)
    ensures CountViable(FailTransports(ts, protocolId)) <= CountViable(ts)
    ensures CountViable(FailTransports(ts, protocolId)) < CountViable(ts)
            <==> exists i | 0 <= i < |ts| :: Viable(ts[i]) && ts[i].protocolId == protocolId
  {
    if ts != [] {
      FailingLowersViable(ts[1..], protocolId);
      assert FailTransports(ts, protocolId)[1..] == FailTransports(ts[1..], protocolId);
      if i :| 0 <= i < |ts| && Viable(ts[i]) && ts[i].protocolId == protocolId {
        assert i == 0 || ts[1..][i - 1] == ts[i];
      }
      if i :| 0 <= i < |ts[1..]| && Viable(ts[1..][i]) && ts[1..][i].protocolId == protocolId {
        assert ts[i + 1] == ts[1..][i];
      }
    }
  }

  lemma {:induction false} UntriedSplits(apps: seq<App>, i: nat, app: App)
    requires i < |apps|
    ensures Untried(apps[i := app]) + CountViable(apps[i].transports) == Untried(apps) + CountViable(app.transports)
  {
    if i == 0 {
      assert apps[0 := app][1..] == apps[1..];
    } else {
      assert apps[i := app][1..] == apps[1..][i - 1 := app];
      UntriedSplits(apps[1..], i - 1, app);
    }
  }

  /** A protocol can be extracted exactly when some transport can be used, and it is that of a viable one. */
  lemma ProtocolIsViable(app: App, network: bool)
    ensures ProtocolId(app, network) != 0 <==>
            exists i | 0 <= i < |app.transports| :: Usable(app.transports[i], network)
    ensures
      var p := ProtocolId(app, network);
      p != 0 <==> exists i | 0 <= i < |app.transports| :: Viable(app.transports[i]) && app.transports[i].protocolId == p
  {
    var i := FirstUsable(app.transports, network);
    if i < |app.transports| {
      assert Usable(app.transports[i], network);
    }
  }

  /** With the network available whatever autostart picks has a protocol. */
  lemma NetworkSuffices(app: App)
    requires HasViable(app.transports)
    ensures ProtocolId(app, true) != 0
  {
    ProtocolIsViable(app, true);
    var i :| 0 <= i < |app.transports| && Viable(app.transports[i]);
    assert Usable(app.transports[i], true);
  }

  function Pick(s: Manager, env: Env): Option<nat>
    requires s.completed.Some?
  {
    AutoStartIndex(s.completed.value, env.pc, env.version, |s.completed.value|)
  }

  /** The application `id` is what autostart picks from the table, as it picks it. */
  predicate JustStarted(s: Manager, id: nat, env: Env) {
    && Inv(s) && !IsInvalid(s.current) && s.completed.Some? && s.firstAit && id in s.apps
    && Pick(s, env).Some?
    && s.apps[id].desc == s.completed.value[Pick(s, env).value]
    && s.apps[id].protocolId == ProtocolId(s.apps[id].desc, s.network)
  }

  /** What autostart picks is always accepted; nothing is started exactly when nothing is eligible. */
  lemma AutostartStarts(s: Manager, env: Env)
    requires Inv(s) && !IsInvalid(s.current) && s.completed.Some? && s.firstAit
    ensures
      var (t, id) := Autostart(s, env);
      && t.completed == s.completed && t.network == s.network && t.current == s.current && t.firstAit
      && (id != NO_APP ==> JustStarted(t, id, env))
      && (id == NO_APP <==> Pick(s, env).None?)
      && (id == NO_APP ==> t == s)
  {
    hide AutoStartIndex, ProtocolId, AgeRestricted, FromDescription, Inv, Find;
    AutostartKeeps(s, env);
    var pick := Pick(s, env);
    if pick.Some? {
      var desc := s.completed.value[pick.value];
      PickIsEligible(s, env);
      DescriptionFields(s.lastId + 1, OpApp, desc, INVALID_TRIPLET, s.network, "", true, false, env.pc);
      DescriptionFields(s.lastId + 1, HbbTV, desc, s.current, s.network, "", true, false, env.pc);
    }
  }

  lemma PickIsEligible(s: Manager, env: Env)
    requires s.completed.Some? && Pick(s, env).Some?
    ensures Pick(s, env).value < |s.completed.value|
    ensures var app := s.completed.value[Pick(s, env).value];
            Eligible(app, env.pc, env.version) && !AgeRestricted(app.ratings, env.pc) && HasViable(app.transports)
  {
    assert s.completed.value[..|s.completed.value|] == s.completed.value;
  }

  lemma FindOwnIndex(apps: seq<App>, i: nat)
    requires WellIdentified(apps) && i < |apps|
    ensures FindIndex(apps, apps[i].orgId, apps[i].appId) == i
  {
  }

  lemma StaysWellIdentified(apps: seq<App>, i: nat, protocolId: uint16)
    requires WellIdentified(apps) && i < |apps|
    ensures WellIdentified(apps[i := SetFailed(apps[i], protocolId)])
  {
  }

  /** The entry of a failed application is marked in the table, whatever else the failure leads to. */
  lemma FailureMarks(s: Manager, id: nat, env: Env)
    requires JustStarted(s, id, env) && WellIdentified(s.completed.value)
    ensures !DereferencesNull(s, id)
    ensures
      var apps, i := s.completed.value, Pick(s, env).value;
      i < |apps| && MarkFailed(s, id) == s.(completed := Some(apps[i := SetFailed(apps[i], s.apps[id].protocolId)]))
  {
    hide AutoStartIndex, Inv;
    PickIsEligible(s, env);
    FindOwnIndex(s.completed.value, Pick(s, env).value);
  }

  lemma AfterFailure(s: Manager, id: nat, env: Env)
    requires JustStarted(s, id, env) && WellIdentified(s.completed.value)
    ensures !DereferencesNull(s, id)
    ensures
      var apps, i := s.completed.value, Pick(s, env).value;
      var (t, next) := LoadFailed(s, id, env);
      && i < |apps|
      && t.completed == Some(apps[i := SetFailed(apps[i], s.apps[id].protocolId)])
      && WellIdentified(t.completed.value)
      && t.network == s.network && Inv(t)
      && (next != NO_APP ==> JustStarted(t, next, env))
      && (next == NO_APP <==> Pick(t, env).None?)
  {
    hide AutoStartIndex, Inv, Autostart, MarkFailed, WellIdentified;
    FailureMarks(s, id, env);
    MarkFailedKeeps(s, id);
    var marked := MarkFailed(s, id);
    KillKeeps(marked, id);
    AutostartStarts(Kill(marked, id), env);
    AutostartKeeps(Kill(marked, id), env);
    StaysWellIdentified(s.completed.value, Pick(s, env).value, s.apps[id].protocolId);
  }

  /**
   * A load failure of an autostarted application uses up a transport exactly when the device could use one of
   * its transports at all; otherwise the same entry is picked again.
   */
  lemma FailureUsesUpATransportExactlyWhen(s: Manager, id: nat, env: Env)
    requires JustStarted(s, id, env) && WellIdentified(s.completed.value) && !DereferencesNull(s, id)
    ensures
      var t := LoadFailed(s, id, env).0;
      && t.completed.Some?
      && Untried(t.completed.value) <= Untried(s.completed.value)
      && (Untried(t.completed.value) < Untried(s.completed.value)
          <==> exists i | 0 <= i < |s.apps[id].desc.transports| :: Usable(s.apps[id].desc.transports[i], s.network))
      && (!(Untried(t.completed.value) < Untried(s.completed.value)) ==> Pick(t, env) == Pick(s, env))
  {
    hide Inv, AutoStartIndex, WellIdentified, Untried, CountViable;
    AfterFailure(s, id, env);
    var apps, i, p := s.completed.value, Pick(s, env).value, s.apps[id].protocolId;
    ProtocolIsViable(apps[i], s.network);
    FailingLowersViable(apps[i].transports, p);
    UntriedSplits(apps, i, SetFailed(apps[i], p));
    if p == 0 {
      SamePick(apps, i, env);
    }
  }

  /** Marking protocol 0 changes nothing that autostart looks at. */
  lemma SamePick(apps: seq<App>, i: nat, env: Env)
    requires i < |apps|
    ensures AutoStartIndex(apps[i := SetFailed(apps[i], 0)], env.pc, env.version, |apps|)
            == AutoStartIndex(apps, env.pc, env.version, |apps|)
  {
    var marked := apps[i := SetFailed(apps[i], 0)];
    var ts := apps[i].transports;
    assert HasViable(FailTransports(ts, 0)) == HasViable(ts) by {
      forall k | 0 <= k < |ts| ensures Viable(FailTransports(ts, 0)[k]) == Viable(ts[k]) {
      }
    }
    SamePickUpTo(apps, marked, env, |apps|);
  }

  lemma {:induction false} SamePickUpTo(apps: seq<App>, marked: seq<App>, env: Env, n: nat)
    requires |marked| == |apps| && n <= |apps|
    requires forall k | 0 <= k < |apps| ::
               Eligible(marked[k], env.pc, env.version) == Eligible(apps[k], env.pc, env.version)
               && marked[k].desc.priority == apps[k].desc.priority
    ensures AutoStartIndex(marked, env.pc, env.version, n) == AutoStartIndex(apps, env.pc, env.version, n)
  {
    hide Eligible;
    if n > 0 {
      SamePickUpTo(apps, marked, env, n - 1);
    }
  }

  /** What `n` load failures lead to when each time what was started last fails: the state and the last id. */
  ghost function Failures(s: Manager, id: nat, env: Env, n: nat): Option<(Manager, nat)>
    decreases n
  {
    if n == 0 then Some((s, id))
    else if id == NO_APP || DereferencesNull(s, id) then None
    else
      var (t, next) := LoadFailed(s, id, env);
      Failures(t, next, env, n - 1)
  }

  predicate NothingUsable(app: App, network: bool) {
    forall i | 0 <= i < |app.transports| :: !Usable(app.transports[i], network)
  }

  /** One failure of an application the device cannot use leaves all as it was, but for the id. */
  lemma UselessFailure(s: Manager, id: nat, env: Env)
    requires JustStarted(s, id, env) && WellIdentified(s.completed.value)
    requires NothingUsable(s.apps[id].desc, s.network)
    ensures !DereferencesNull(s, id)
    ensures
      var (t, next) := LoadFailed(s, id, env);
      && next != NO_APP && JustStarted(t, next, env) && WellIdentified(t.completed.value)
      && NothingUsable(t.apps[next].desc, t.network)
      && Untried(t.completed.value) == Untried(s.completed.value)
      && Pick(t, env) == Pick(s, env)
  {
    hide Inv, AutoStartIndex, WellIdentified, Untried, LoadFailed, ProtocolId;
    AfterFailure(s, id, env);
    PickIsEligible(s, env);
    FailureUsesUpATransportExactlyWhen(s, id, env);
    var apps, i := s.completed.value, Pick(s, env).value;
    MarkedStaysUseless(apps[i], s.apps[id].protocolId, s.network);
  }

  lemma MarkedStaysUseless(app: App, protocolId: uint16, network: bool)
    requires NothingUsable(app, network)
    ensures NothingUsable(SetFailed(app, protocolId), network)
  {
  }

  /** So the same entry is started again and again, however often it fails. */
  lemma {:induction false} UselessFailuresNeverEnd(s: Manager, id: nat, env: Env, n: nat)
    requires JustStarted(s, id, env) && WellIdentified(s.completed.value)
    requires NothingUsable(s.apps[id].desc, s.network)
    ensures
      var r := Failures(s, id, env, n);
      && r.Some?
      && JustStarted(r.value.0, r.value.1, env)
      && Untried(r.value.0.completed.value) == Untried(s.completed.value)
      && Pick(r.value.0, env) == Pick(s, env)
    decreases n
  {
    hide WellIdentified, NothingUsable, Untried, LoadFailed, Pick;
    if n > 0 {
      UselessFailure(s, id, env);
      var (t, next) := LoadFailed(s, id, env);
      UselessFailuresNeverEnd(t, next, env, n - 1);
    }
  }

  /** A chain of failures: its length, and the last failure with the state before and after it. */
  datatype Chain = Chain(length: nat, before: Manager, failed: nat, end: Manager)

  /**
   * The chain of failures that starts with `id`. With the network available it is finite, no longer than the number
   * of transports there were to try, and it ends with nothing left to start; what failed last is gone then, its slot
   * empty and the other one as it was.
   */
  ghost function FailureChain(s: Manager, id: nat, env: Env): (r: Chain)
    requires JustStarted(s, id, env) && WellIdentified(s.completed.value) && s.network
    ensures 1 <= r.length <= Untried(s.completed.value)
    ensures r.end.completed.Some? && Pick(r.end, env).None? && Inv(r.end)
    ensures forall i | 0 <= i < |r.end.completed.value| :: !Eligible(r.end.completed.value[i], env.pc, env.version)
    ensures JustStarted(r.before, r.failed, env) && IsEmptied(r.before, r.failed, r.end)
    decreases Untried(s.completed.value)
  {
    hide Inv, AutoStartIndex, WellIdentified, Untried, LoadFailed, Eligible, IsEmptied;
    AfterFailure(s, id, env);
    PickIsEligible(s, env);
    FailureUsesUpATransportExactlyWhen(s, id, env);
    NetworkSuffices(s.apps[id].desc);
    ProtocolIsViable(s.apps[id].desc, true);
    var (t, next) := LoadFailed(s, id, env);
    if next == NO_APP then
      LastFailureEmpties(s, id, env);
      Chain(1, s, id, t)
    else
      var rest := FailureChain(t, next, env);
      rest.(length := rest.length + 1)
  }

  /** `t` has the applications of `s` but `id`, whose slot is empty. */
  predicate IsEmptied(s: Manager, id: nat, t: Manager) {
    && id !in t.apps && t.apps == s.apps - {id}
    && t.hbbtvId == (if s.hbbtvId == id then NO_APP else s.hbbtvId)
    && t.opId == (if s.opId == id then NO_APP else s.opId)
  }

  lemma LastFailureEmpties(s: Manager, id: nat, env: Env)
    requires JustStarted(s, id, env) && WellIdentified(s.completed.value)
    requires !DereferencesNull(s, id) && LoadFailed(s, id, env).1 == NO_APP
    ensures IsEmptied(s, id, LoadFailed(s, id, env).0)
  {
    hide AutoStartIndex, WellIdentified, Safe, Autostart, ProtocolId;
    FailureMarks(s, id, env);
    MarkFailedKeeps(s, id);
    KillKeeps(MarkFailed(s, id), id);
    AutostartStarts(Kill(MarkFailed(s, id), id), env);
  }

  const HTTP_ONLY := App(1, 1, CONTROL_AUTOSTART,
                         [Transport(PROTOCOL_HTTP, 0, false, Triplet(0, 0, 0), 0, "http://a/", [], false)],
                         "", [], AppDesc(3, 0, false, [Profile(0, 1, 0, 0)], []), 0, [], [], [], "", "")

  /** The calls after which the only application of the table has been started without a network to load it. */
  function StartWithoutNetwork(env: Env): seq<Call> {
    [Call(ChannelChangedEvent(Triplet(1, 1, 1)), env), Call(AitSectionEvent(5, 1, Some([HTTP_ONLY])), env)]
  }

  lemma HttpOnlyIsEligible(env: Env)
    requires env.version == Version(1, 7, 1)
    ensures Eligible(HTTP_ONLY, env.pc, env.version)
    ensures AutoStartIndex([HTTP_ONLY], env.pc, env.version, 1) == Some(0)
    ensures NothingUsable(HTTP_ONLY, false) && WellIdentified([HTTP_ONLY])
  {
    assert AtMost(HTTP_ONLY.desc.profiles[0], env.version);
    assert Viable(HTTP_ONLY.transports[0]);
    assert Eligible([HTTP_ONLY][0], env.pc, env.version);
  }

  /** It can happen: the network is off, and the application fails to load any number of times. */
  lemma UselessFailuresAreReachable(env: Env, n: nat)
    requires env.version == Version(1, 7, 1)
    ensures
      var calls := StartWithoutNetwork(env);
      && AllReal(calls) && Run(INITIAL, calls).Some?
      && var s := Run(INITIAL, calls).value;
         && JustStarted(s, 1, env)
         && Failures(s, 1, env, n).Some?
         && var r := Failures(s, 1, env, n).value;
            && JustStarted(r.0, r.1, env)
            && Untried(r.0.completed.value) == Untried(s.completed.value)
  {
    hide MergeUrlParams, BaseUrl, UpdatedUrl, AgeRestricted, AutoStartIndex, Untried, Failures;
    var calls := StartWithoutNetwork(env);
    var a := ChannelChanged(INITIAL, Triplet(1, 1, 1));
    var table := [HTTP_ONLY];
    HttpOnlyIsEligible(env);
    var t := OnPid(a, 5).(completed := Some(table), firstAit := true);
    var s := Autostart(t, env).0;
    assert Inv(INITIAL);
    assert Inv(t);
    AutostartStarts(t, env);
    assert calls[1..][1..] == [];
    assert Run(s, []) == Some(s);
    assert Step(a, calls[1].event, env) == Some(s);
    assert Run(a, calls[1..]) == Run(s, calls[1..][1..]);
    UselessFailuresNeverEnd(s, 1, env, n);
  }
}
