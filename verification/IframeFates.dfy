/** Which messages of the iframe proxy protocol are discarded, over whole runs. */
module IframeFates {
  import opened Common
  import opened IframeProxy
  import opened IframeProtocol
  import opened IframeSessions
  import IframeCalls

  /**
   * The next message for `to` comes too late or for nobody: it is of another session, or the call it answers is not
   * open, or its observer is unknown. A handshake request never is.
   */
  predicate Stale(s: System, to: Side, known: bool)
    requires Waiting(s, to)
  {
    var p, e := s.Get(to).proxy, Next(s, to);
    !e.data.kind.HandshakeRequest? &&
    (e.session != p.session || if e.data.kind.Answers() then e.data.callId !in p.calls else !known)
  }

  lemma DiscardsTheStale(s: System, to: Side, known: bool)
    requires SessionsHold(s) && Waiting(s, to)
    ensures FateOf(s.Get(to).proxy, Next(s, to), known).Discarded? <==> Stale(s, to, known)
  {
    assert Next(s, to).session.Some?;
  }

  /** How one event adds to the fates of the messages of `from`. */
  lemma StepFates(s: System, event: Event, from: Side)
    requires SessionsHold(s)
    ensures
      var (t, to) := (Step(s, event), Other(from));
      t.Get(from).fates == s.Get(from).fates +
        if event.Deliver? && event.side == to && Waiting(s, to) then [FateOf(s.Get(to).proxy, Next(s, to), event.known)]
        else if event.Reload? && from.Main? then Losses(s.main)
        else []
  {
    match event
    case Deliver(side, known) =>
      hide SessionsHold, FateOf;
      DeliveredKeepsSessions(s, side, known);
    case _ =>
  }

  /** The event that took message `i` of `from`. */
  lemma {:induction false} TakenBy(events: seq<Event>, from: Side, i: nat) returns (n: nat)
    requires i < |Run(START, events).Get(from).fates|
    ensures n < |events|
    ensures Run(START, events[..n + 1]) == Step(Run(START, events[..n]), events[n])
    ensures |Run(START, events[..n]).Get(from).fates| <= i < |Run(START, events[..n + 1]).Get(from).fates|
    ensures Run(START, events).Get(from).fates[i] == Run(START, events[..n + 1]).Get(from).fates[i]
    decreases |events|
  {
    assert events != [] by { assert |START.Get(from).fates| == 0; }
    var last := |events| - 1;
    assert events == events[..last] + [events[last]] && events[..last + 1] == events;
    IframeCalls.RunOneMore(START, events[..last], events[last]);
    var s := Run(START, events[..last]);
    RunsHoldSessions(events[..last]);
    hide Run, Step, SessionsHold;
    StepFates(s, events[last], from);
    if |s.Get(from).fates| <= i {
      n := last;
    } else {
      n := TakenBy(events[..last], from, i);
      assert events[..last][..n] == events[..n] && events[..last][..n + 1] == events[..n + 1];
    }
  }

  /**
   * After any run: each message that was taken was taken by one event. A delivery discards it exactly when it is stale
   * at that moment; the only other event that takes messages is a reload of the frame, which discards what was on its
   * way there.
   */
  lemma DiscardedExactlyWhen(events: seq<Event>, from: Side, i: nat) returns (n: nat)
    requires i < |Run(START, events).Get(from).fates|
    ensures n < |events|
    ensures
      var (s, to, fate) := (Run(START, events[..n]), Other(from), Run(START, events).Get(from).fates[i]);
      if events[n].Deliver? then
        && events[n].side == to && |s.Get(from).fates| == i && Waiting(s, to)
        && (fate.Discarded? <==> Stale(s, to, events[n].known))
      else
        events[n].Reload? && from.Main? && fate.Discarded?
  {
    n := TakenBy(events, from, i);
    var s := Run(START, events[..n]);
    RunsHoldSessions(events[..n]);
    StepFates(s, events[n], from);
    if events[n].Deliver? {
      DiscardsTheStale(s, Other(from), events[n].known);
    }
  }

  /** The frame is never ahead of the main window. */
  ghost predicate NotAhead(s: System) {
    s.main.proxy.session.Some? ==>
      && (s.frame.proxy.session.Some? ==> s.frame.proxy.session.value <= s.main.proxy.session.value)
      && forall e | e in s.frame.channel :: e.session.Some? ==> e.session.value <= s.main.proxy.session.value
  }

  lemma WriteKeepsBehind(s: System, side: Side, kind: Kind, callId: nat, cause: nat)
    requires NotAhead(s)
    ensures NotAhead(Write(s, side, kind, callId, cause))
  {
  }

  lemma FlushKeepsBehind(s: System, side: Side)
    requires NotAhead(s)
    ensures NotAhead(FlushSide(s, side))
  {
    var p := s.frame;
    assert forall e | e in Stamp(p.proxy.session, p.proxy.pending) :: e.session == p.proxy.session;
  }

  lemma GreetedKeepsBehind(s: System, e: Envelope)
    requires NotAhead(s)
    requires s.main.proxy.session.Some? && e.session.Some? ==> e.session.value <= s.main.proxy.session.value
    ensures NotAhead(Greeted(s, Frame, e))
  {
    hide Write, FlushSide;
    var t := WithSession(s, Frame, e.session, true);
    WriteKeepsBehind(t, Frame, HandshakeResponse, e.data.callId, e.data.tag);
    FlushKeepsBehind(Write(t, Frame, HandshakeResponse, e.data.callId, e.data.tag), Frame);
  }

  lemma DeliveredKeepsBehind(s: System, to: Side, known: bool)
    requires NotAhead(s) && SessionsHold(s)
    ensures NotAhead(Delivered(s, to, known))
  {
    if Waiting(s, to) {
      var e := Next(s, to);
      var fate := FateOf(s.Get(to).proxy, e, known);
      var u := Take(s, to, fate);
      DeliveredCases(s, to, known);
      assert NotAhead(u);
      assert to.Frame? ==> e in s.main.channel;
      if e.data.kind.HandshakeRequest? {
        GreetedKeepsBehind(u, e);
      } else if fate.Settled? {
        FlushKeepsBehind(StopListening(u, to, fate.request.callId), to);
      }
    }
  }

  lemma StepKeepsBehind(s: System, event: Event)
    requires NotAhead(s) && SessionsHold(s)
    ensures NotAhead(Step(s, event))
  {
    match event
    case Deliver(side, known) => DeliveredKeepsBehind(s, side, known);
    case InitiateHandshake => HandshakeKeepsBehind(s);
    case _ =>
  }

  lemma HandshakeKeepsBehind(s: System)
    requires SessionsHold(s)
    ensures NotAhead(Step(s, InitiateHandshake))
  {
    forall e | e in s.frame.channel && e.session.Some? ensures e.session.value < s.sessions {
      var i :| 0 <= i < |s.frame.channel| && s.frame.channel[i] == e;
    }
  }

  lemma {:induction false} RunKeepsBehind(s: System, events: seq<Event>)
    requires NotAhead(s) && SessionsHold(s)
    ensures NotAhead(Run(s, events))
    decreases |events|
  {
    hide NotAhead, SessionsHold, Step;
    if events != [] {
      StepKeepsBehind(s, events[0]);
      StepIsSteady(s, events[0], 0);
      assert SessionsHold(Step(s, events[0]));
      RunKeepsBehind(Step(s, events[0]), events[1..]);
    }
  }

  /** What the main window discards for its session, while it is in one, was sent in an earlier session. */
  lemma StaleAtTheMainWindowIsOlder(events: seq<Event>)
    requires Waiting(Run(START, events), Main)
    ensures
      var s := Run(START, events);
      var (session, stamp) := (s.main.proxy.session, Next(s, Main).session);
      && stamp.Some?
      && (session.Some? && stamp != session ==> stamp.value < session.value)
  {
    assert NotAhead(START) && SessionsHold(START);
    RunKeepsBehind(START, events);
    RunsHoldSessions(events);
    var s := Run(START, events);
    assert Next(s, Main) in s.frame.channel;
  }
}
