/** Session isolation of the iframe proxy protocol over whole runs. */
module IframeSessions {
  import opened Common
  import opened IframeProxy
  import opened IframeProtocol

  /** All messages in the channel are stamped, with sessions that have been given out. */
  ghost predicate Stamped(channel: seq<Envelope>, sessions: nat) {
    forall i | 0 <= i < |channel| :: channel[i].session.Some? && channel[i].session.value < sessions
  }

  ghost predicate Rising(channel: seq<Envelope>)
    requires forall i | 0 <= i < |channel| :: channel[i].session.Some?
  {
    forall i, j | 0 <= i < j < |channel| :: channel[i].session.value <= channel[j].session.value
  }

  /** The session is known exactly when the remote window is, and has been given out. */
  ghost predicate Paired(p: Proxy, sessions: nat) {
    && (p.session.Some? <==> p.remote)
    && (p.session.Some? ==> p.session.value < sessions)
  }

  /** No message of `p` is a handshake request. */
  ghost predicate NeverGreets(p: Party) {
    && (forall d | d in p.proxy.pending :: !d.kind.HandshakeRequest?)
    && (forall e | e in p.channel :: !e.data.kind.HandshakeRequest?)
  }

  /** Nothing the frame has still to take is older than session `k`, nor is either side's session. */
  ghost predicate Floor(s: System, k: nat)
    requires Stamped(s.main.channel, s.sessions)
  {
    && MainFloor(s, k)
    && (s.frame.proxy.session.Some? ==> k <= s.frame.proxy.session.value)
    && forall i | |s.main.fates| <= i < |s.main.channel| :: k <= s.main.channel[i].session.value
  }

  ghost predicate MainFloor(s: System, k: nat) {
    k < s.sessions && (s.main.proxy.session.Some? ==> k <= s.main.proxy.session.value)
  }

  ghost predicate SessionsHold(s: System) {
    && Paired(s.main.proxy, s.sessions) && Paired(s.frame.proxy, s.sessions)
    && (forall o | o in s.others :: o < s.sessions)
    && (s.main.proxy.session.Some? ==> s.main.proxy.session.value !in s.others)
    && Stamped(s.main.channel, s.sessions) && Stamped(s.frame.channel, s.sessions)
    && Rising(s.main.channel)
    && (s.main.proxy.session.Some? ==>
          forall i | 0 <= i < |s.main.channel| :: s.main.channel[i].session.value <= s.main.proxy.session.value)
    && (s.frame.proxy.session.Some? ==> Floor(s, s.frame.proxy.session.value))
    && NeverGreets(s.frame)
    && |s.main.fates| <= |s.main.channel| && |s.frame.fates| <= |s.frame.channel|
  }

  /**
   * `t` continues `s`; what the receiver of `from`'s messages took in between and did not discard is of session `k`
   * or later.
   */
  ghost predicate Isolated(s: System, t: System, from: Side, k: nat) {
    var (p, q) := (s.Get(from), t.Get(from));
    && p.channel <= q.channel && p.fates <= q.fates
    && |q.fates| <= |q.channel|
    && forall i | |p.fates| <= i < |q.fates| && !q.fates[i].Discarded? ::
         q.channel[i].session.Some? && k <= q.channel[i].session.value
  }

  /** From `s` to `t` messages were sent and nothing else that concerns sessions happened. */
  ghost predicate OnlySent(s: System, t: System) {
    && s.sessions == t.sessions && s.others == t.others
    && s.main.channel <= t.main.channel && s.main.fates == t.main.fates
    && s.frame.channel <= t.frame.channel && s.frame.fates == t.frame.fates
    && s.main.proxy.session == t.main.proxy.session
    && s.frame.proxy.session == t.frame.proxy.session
  }

  ghost predicate KeepsFloors(s: System, t: System)
    requires Stamped(s.main.channel, s.sessions) && Stamped(t.main.channel, t.sessions)
  {
    forall k | Floor(s, k) :: Floor(t, k)
  }

  lemma WriteKeepsSessions(s: System, side: Side, kind: Kind, callId: nat, cause: nat)
    requires SessionsHold(s) && (kind.HandshakeRequest? ==> side.Main?)
    ensures
      var t := Write(s, side, kind, callId, cause);
      SessionsHold(t) && OnlySent(s, t) && KeepsFloors(s, t)
  {
  }

  lemma FlushKeepsSessions(s: System, side: Side)
    requires SessionsHold(s)
    ensures
      var t := FlushSide(s, side);
      SessionsHold(t) && OnlySent(s, t) && KeepsFloors(s, t)
  {
    var p := s.Get(side);
    if p.proxy.remote {
      var es := Stamp(p.proxy.session, p.proxy.pending);
      forall e | e in p.channel + es ensures e in p.channel || (e in es && e.data in p.proxy.pending) {
      }
    }
  }

  /** Calls and debts have nothing to do with sessions. */
  lemma SameSessions(s: System, t: System)
    requires SessionsHold(s)
    requires s.sessions == t.sessions && s.others == t.others
    requires SameParty(s.main, t.main) && SameParty(s.frame, t.frame)
    ensures SessionsHold(t) && OnlySent(s, t) && KeepsFloors(s, t)
  {
  }

  predicate SameParty(p: Party, q: Party) {
    && p.proxy.session == q.proxy.session && p.proxy.remote == q.proxy.remote && p.proxy.pending == q.proxy.pending
    && p.channel == q.channel && p.fates == q.fates
  }

  lemma TakeKeepsSessions(s: System, to: Side, fate: Fate)
    requires SessionsHold(s) && Waiting(s, to)
    ensures
      var t := Take(s, to, fate);
      SessionsHold(t) && KeepsFloors(s, t)
  {
  }

  /** The frame adopts the session of the handshake request it has just taken. */
  lemma AdoptKeepsSessions(s: System)
    requires SessionsHold(s) && Waiting(s, Frame)
    ensures
      var e := Next(s, Frame);
      var t := WithSession(Take(s, Frame, Accepted), Frame, e.session, true);
      && SessionsHold(t) && KeepsFloors(s, t)
      && t.main.fates == s.main.fates + [Accepted]
  {
  }

  /**
   * A completed handshake finds the remote window known, so that the loop that sends what waited ends: with the
   * window unknown each message would be queued again.
   */
  lemma SettlingFindsTheWindow(s: System, to: Side, known: bool)
    requires SessionsHold(s) && Waiting(s, to)
    requires FateOf(s.Get(to).proxy, Next(s, to), known).Settled?
    ensures s.Get(to).proxy.remote
  {
  }

  /** The frame answers a handshake request it has just taken, and sends what waited. */
  lemma GreetedKeepsSessions(s: System)
    requires SessionsHold(s) && Waiting(s, Frame)
    ensures
      var t := Greeted(Take(s, Frame, Accepted), Frame, Next(s, Frame));
      && SessionsHold(t) && KeepsFloors(s, t)
      && t.main.proxy.session == s.main.proxy.session && t.sessions == s.sessions
      && t.main.channel == s.main.channel && t.main.fates == s.main.fates + [Accepted]
      && s.frame.channel <= t.frame.channel && t.frame.fates == s.frame.fates
  {
    var e := Next(s, Frame);
    AdoptKeepsSessions(s);
    hide SessionsHold, Floor, Stamped, Rising;
    var u := WithSession(Take(s, Frame, Accepted), Frame, e.session, true);
    WriteKeepsSessions(u, Frame, HandshakeResponse, e.data.callId, e.data.tag);
    FlushKeepsSessions(Write(u, Frame, HandshakeResponse, e.data.callId, e.data.tag), Frame);
  }

  lemma SettleKeepsSessions(s: System, to: Side, request: Data)
    requires SessionsHold(s)
    ensures SessionsHold(Settle(s, to, request)) && OnlySent(s, Settle(s, to, request))
    ensures KeepsFloors(s, Settle(s, to, request))
  {
    hide SessionsHold, FlushSide, Floor, Stamped;
    var u := StopListening(s, to, request.callId);
    SameSessions(s, u);
    FlushKeepsSessions(u, to);
  }

  /** `Delivered` without its case analysis: which of the lemmas above applies. */
  lemma DeliveredCases(s: System, to: Side, known: bool)
    requires SessionsHold(s) && Waiting(s, to)
    ensures
      var e, t := Next(s, to), Delivered(s, to, known);
      var fate := FateOf(s.Get(to).proxy, e, known);
      var u := Take(s, to, fate);
      if e.data.kind.HandshakeRequest? then to == Frame && fate == Accepted && t == Greeted(u, to, e)
      else t == u || (fate.Settled? && t == Settle(u, to, fate.request)) || t == Owe(u, to, u.Get(to).owes + {e.data})
  {
    assert to.Main? ==> Next(s, to) in s.frame.channel;
  }

  lemma DeliveredKeepsSessions(s: System, to: Side, known: bool)
    requires SessionsHold(s)
    ensures
      var t := Delivered(s, to, known);
      && SessionsHold(t) && KeepsFloors(s, t)
      && t.main.proxy.session == s.main.proxy.session && t.sessions == s.sessions
      && s.main.channel <= t.main.channel && s.frame.channel <= t.frame.channel
      && t.Get(to).fates == s.Get(to).fates
      && t.Get(Other(to)).fates == s.Get(Other(to)).fates +
                                  if Waiting(s, to) then [FateOf(s.Get(to).proxy, Next(s, to), known)] else []
  {
    if Waiting(s, to) {
      var e := Next(s, to);
      var fate := FateOf(s.Get(to).proxy, e, known);
      var u := Take(s, to, fate);
      DeliveredCases(s, to, known);
      TakeKeepsSessions(s, to, fate);
      hide SessionsHold, Greeted, Settle, Delivered, Floor, Stamped, FateOf;
      if e.data.kind.HandshakeRequest? {
        GreetedKeepsSessions(s);
      } else {
        if fate.Settled? {
          SettleKeepsSessions(u, to, fate.request);
        }
        SameSessions(u, Owe(u, to, u.Get(to).owes + {e.data}));
      }
    }
  }

  /** What is taken and not discarded is of the receiver's session, so of session `k` or later. */
  lemma TakenIsRecent(s: System, to: Side, known: bool, k: nat)
    requires SessionsHold(s) && Waiting(s, to)
    requires if to.Main? then MainFloor(s, k) else Floor(s, k)
    requires !FateOf(s.Get(to).proxy, Next(s, to), known).Discarded?
    ensures Next(s, to).session.Some? && k <= Next(s, to).session.value
  {
    assert to.Main? ==> Next(s, to) in s.frame.channel;
  }

  lemma DeliveredIsolates(s: System, to: Side, known: bool, k: nat)
    requires SessionsHold(s)
    requires if to.Main? then MainFloor(s, k) else Floor(s, k)
    ensures Isolated(s, Delivered(s, to, known), Other(to), k)
    ensures Isolated(s, Delivered(s, to, known), to, k)
  {
    var t := Delivered(s, to, known);
    assert SessionsHold(t) by { DeliveredKeepsSessions(s, to, known); }
    DeliveredKeepsSessions(s, to, known);
    if Waiting(s, to) {
      if !FateOf(s.Get(to).proxy, Next(s, to), known).Discarded? {
        TakenIsRecent(s, to, known, k);
      }
    }
  }

  lemma AskKeepsSessions(s: System, side: Side, kind: Kind)
    requires SessionsHold(s) && (kind.HandshakeRequest? ==> side.Main?)
    ensures SessionsHold(Ask(s, side, kind)) && OnlySent(s, Ask(s, side, kind)) && KeepsFloors(s, Ask(s, side, kind))
  {
    hide SessionsHold, Floor, Stamped, Write;
    SameSessions(s, Listen(s, side, kind));
    WriteKeepsSessions(Listen(s, side, kind), side, kind, s.Get(side).nextCall, 0);
  }

  /** The session a handshake takes is later than that of every message sent so far. */
  lemma NewSessionKeepsSessions(s: System)
    requires SessionsHold(s)
    ensures
      var t := WithSession(s, Main, Some(s.sessions), true).(sessions := s.sessions + 1);
      SessionsHold(t) && KeepsFloors(s, t) && (forall k | MainFloor(s, k) :: MainFloor(t, k))
  {
  }

  lemma HandshakeKeepsSessions(s: System)
    requires SessionsHold(s)
    ensures SessionsHold(Step(s, InitiateHandshake)) && KeepsFloors(s, Step(s, InitiateHandshake))
    ensures Step(s, InitiateHandshake).main.proxy.session == Some(s.sessions)
    ensures Step(s, InitiateHandshake).sessions == s.sessions + 1
    ensures s.main.channel <= Step(s, InitiateHandshake).main.channel
    ensures Step(s, InitiateHandshake).main.fates == s.main.fates && Step(s, InitiateHandshake).frame == s.frame
  {
    var t := WithSession(s, Main, Some(s.sessions), true).(sessions := s.sessions + 1);
    NewSessionKeepsSessions(s);
    assert Step(s, InitiateHandshake) == Ask(t, Main, HandshakeRequest);
    hide SessionsHold, Floor, Stamped;
    AskKeepsSessions(t, Main, HandshakeRequest);
  }

  /** One event: the invariant, the floors, and isolation. */
  ghost predicate Steady(s: System, t: System, k: nat)
    requires SessionsHold(s)
  {
    && SessionsHold(t)
    && (MainFloor(s, k) ==> MainFloor(t, k) && Isolated(s, t, Frame, k))
    && (Floor(s, k) ==> Floor(t, k) && Isolated(s, t, Main, k))
  }

  lemma SentIsSteady(s: System, t: System, k: nat)
    requires SessionsHold(s) && SessionsHold(t) && OnlySent(s, t) && KeepsFloors(s, t)
    ensures Steady(s, t, k)
  {
  }

  lemma StepIsSteady(s: System, event: Event, k: nat)
    requires SessionsHold(s)
    ensures Steady(s, Step(s, event), k)
  {
    match event
    case PostMessage(side) => WriteIsSteady(s, side, Plain, 0, 0, k);
    case MakeCall(side) => CallIsSteady(s, side, k);
    case Answer(side, request) => AnswerIsSteady(s, side, request, k);
    case Timeout(side, callId) => TimeoutIsSteady(s, side, callId, k);
    case Deliver(side, known) => DeliverIsSteady(s, side, known, k);
    case InitiateHandshake => HandshakeIsSteady(s, k);
    case _ => RestIsSteady(s, event, k);
  }

  lemma WriteIsSteady(s: System, side: Side, kind: Kind, callId: nat, cause: nat, k: nat)
    requires SessionsHold(s) && !kind.HandshakeRequest?
    ensures Steady(s, Write(s, side, kind, callId, cause), k)
  {
    hide SessionsHold, Steady, Write;
    WriteKeepsSessions(s, side, kind, callId, cause);
    SentIsSteady(s, Write(s, side, kind, callId, cause), k);
  }

  lemma CallIsSteady(s: System, side: Side, k: nat)
    requires SessionsHold(s)
    ensures Steady(s, Ask(s, side, Call), k)
  {
    hide SessionsHold, Steady, Ask;
    AskKeepsSessions(s, side, Call);
    SentIsSteady(s, Ask(s, side, Call), k);
  }

  lemma AnswerIsSteady(s: System, side: Side, request: Data, k: nat)
    requires SessionsHold(s)
    ensures Steady(s, Answered(s, side, request), k)
  {
    var t := Owe(s, side, s.Get(side).owes - {request});
    SameSessions(s, s);
    SameSessions(s, t);
    WriteKeepsSessions(t, side, Response, request.callId, request.tag);
    hide SessionsHold, Write, Stamped, Floor;
    SentIsSteady(s, Answered(s, side, request), k);
  }

  lemma TimeoutIsSteady(s: System, side: Side, callId: nat, k: nat)
    requires SessionsHold(s)
    ensures Steady(s, StopListening(s, side, callId), k)
  {
    SameSessions(s, StopListening(s, side, callId));
    hide SessionsHold;
    SentIsSteady(s, StopListening(s, side, callId), k);
  }

  lemma DeliverIsSteady(s: System, to: Side, known: bool, k: nat)
    requires SessionsHold(s)
    ensures Steady(s, Delivered(s, to, known), k)
  {
    DeliveredKeepsSessions(s, to, known);
    assert Floor(s, k) ==> MainFloor(s, k);
    assert to.Frame? ==> Isolated(s, Delivered(s, to, known), Frame, k) by {
      IsolatedWhenNothingTaken(s, Delivered(s, to, known), to, k);
    }
    assert to.Main? ==> Isolated(s, Delivered(s, to, known), Main, k) by {
      IsolatedWhenNothingTaken(s, Delivered(s, to, known), to, k);
    }
    hide SessionsHold, Delivered, Isolated, Floor, Stamped;
    if MainFloor(s, k) && (to.Main? || Floor(s, k)) {
      DeliveredIsolates(s, to, known, k);
    }
  }

  lemma IsolatedWhenNothingTaken(s: System, t: System, from: Side, k: nat)
    requires SessionsHold(t)
    ensures s.Get(from).channel <= t.Get(from).channel && s.Get(from).fates == t.Get(from).fates ==>
              Isolated(s, t, from, k)
  {
  }

  lemma HandshakeIsSteady(s: System, k: nat)
    requires SessionsHold(s)
    ensures Steady(s, Step(s, InitiateHandshake), k)
  {
    hide Step, Floor;
    HandshakeKeepsSessions(s);
  }

  lemma RestIsSteady(s: System, event: Event, k: nat)
    requires SessionsHold(s)
    requires event in {Invalidate, Reload, OtherHandshake, OtherCall}
    ensures Steady(s, Step(s, event), k)
  {
  }

  lemma IsolationIsTransitive(s: System, t: System, u: System, from: Side, k: nat)
    requires Isolated(s, t, from, k) && Isolated(t, u, from, k)
    ensures Isolated(s, u, from, k)
  {
    var (p, q, r) := (s.Get(from), t.Get(from), u.Get(from));
    assert forall i | |p.fates| <= i < |q.fates| :: r.fates[i] == q.fates[i] && r.channel[i] == q.channel[i];
  }

  lemma {:induction false} RunIsSteady(s: System, events: seq<Event>, k: nat)
    requires SessionsHold(s)
    ensures Steady(s, Run(s, events), k)
    decreases |events|
  {
    if events == [] {
    } else {
      StepIsSteady(s, events[0], k);
      var t := Step(s, events[0]);
      RunIsSteady(t, events[1..], k);
      hide SessionsHold, Step, Isolated, MainFloor;
      if MainFloor(s, k) {
        IsolationIsTransitive(s, t, Run(t, events[1..]), Frame, k);
      }
      if Floor(s, k) {
        IsolationIsTransitive(s, t, Run(t, events[1..]), Main, k);
      }
    }
  }

  lemma RunsHoldSessions(events: seq<Event>)
    ensures SessionsHold(Run(START, events))
  {
    assert SessionsHold(START);
    RunIsSteady(START, events, 0);
  }

  /**
   * Session isolation: once a side is in session `k`, then whatever happens later, every message it accepts and
   * every response that settles one of its calls was sent in session `k` or a later one.
   */
  lemma EarlierSessionsAreIgnored(before: seq<Event>, after: seq<Event>, k: nat)
    ensures
      var s := Run(START, before);
      var t := Run(s, after);
      && (s.main.proxy.session == Some(k) ==> Isolated(s, t, Frame, k))
      && (s.frame.proxy.session == Some(k) ==> Isolated(s, t, Main, k))
  {
    RunsHoldSessions(before);
    var s := Run(START, before);
    RunIsSteady(s, after, k);
  }

  /** A handshake takes a session that no other proxy has and no message carries. */
  lemma HandshakesTakeANewSession(before: seq<Event>)
    ensures
      var s := Run(START, before);
      var t := Step(s, InitiateHandshake);
      && t.main.proxy.session.Some?
      && t.main.proxy.session.value !in t.others
      && forall e | e in s.main.channel + s.frame.channel ::
           e.session.Some? && e.session.value < t.main.proxy.session.value
  {
    RunsHoldSessions(before);
    var s := Run(START, before);
    HandshakeKeepsSessions(s);
    forall e | e in s.main.channel + s.frame.channel ensures e.session.Some? && e.session.value < s.sessions {
      assert e in s.main.channel || e in s.frame.channel;
    }
  }

  /** What belongs to another proxy of the same window, whose messages arrive here too, is discarded. */
  lemma OtherProxiesAreIgnored(before: seq<Event>, e: Envelope, known: bool)
    requires !e.data.kind.HandshakeRequest?
    requires e.session.Some? && e.session.value in Run(START, before).others
    ensures FateOf(Run(START, before).main.proxy, e, known) == Discarded
  {
    RunsHoldSessions(before);
  }

  /** In every run the loop that sends what waited after a completed handshake ends. */
  lemma EveryFlushEnds(before: seq<Event>, to: Side, known: bool)
    requires Waiting(Run(START, before), to)
    requires
      var s := Run(START, before);
      FateOf(s.Get(to).proxy, Next(s, to), known).Settled?
    ensures Run(START, before).Get(to).proxy.remote
  {
    RunsHoldSessions(before);
    SettlingFindsTheWindow(Run(START, before), to, known);
  }
}
