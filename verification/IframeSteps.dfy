/**
 * What each event of the iframe proxy protocol does, stated by what is in the channels and queues afterwards, and that
 * it is what the proxy objects do.
 */
module IframeSteps {
  import opened Common
  import opened IframeProxy
  import opened IframeProtocol
  import opened IframeSessions
  import opened IframeFates
  import IframeCalls

  predicate AreStamped(es: seq<Envelope>, session: Option<nat>, ds: seq<Data>) {
    |es| == |ds| && forall i | 0 <= i < |ds| :: es[i].session == session && es[i].data == ds[i]
  }

  /** `q` is `p` once `ds` have gone out behind all it has sent before. */
  predicate Sends(p: Party, q: Party, ds: seq<Data>) {
    && q == p.(channel := q.channel)
    && |p.channel| <= |q.channel| && q.channel[..|p.channel|] == p.channel
    && AreStamped(q.channel[|p.channel|..], p.proxy.session, ds)
  }

  /** `d` goes out at once where the remote window is known, and waits behind the others where it is not. */
  predicate Hands(p: Party, q: Party, d: Data) {
    if p.proxy.remote then Sends(p, q, [d]) else q == p.(proxy := p.proxy.(pending := p.proxy.pending + [d]))
  }

  /** `p` with an empty queue. */
  function Emptied(p: Party): Party {
    p.(proxy := p.proxy.(pending := []))
  }

  function Joined(p: Party, session: Option<nat>, remote: bool): Party {
    p.(proxy := p.proxy.(session := session, remote := remote))
  }

  function Closed(p: Party, callId: nat): Party {
    p.(proxy := p.proxy.(calls := map k | k in p.proxy.calls && k != callId :: p.proxy.calls[k]))
  }

  /** `p` with an open call, the number of which is used up. */
  function Opened(p: Party, request: Data): Party {
    p.(proxy := p.proxy.(calls := p.proxy.calls[p.nextCall := request]), nextCall := p.nextCall + 1)
  }

  function Request(s: System, side: Side, kind: Kind): Data {
    Data(kind, side, s.Get(side).nextCall, |s.posted|, 0)
  }

  function Reply(s: System, side: Side, kind: Kind, request: Data): Data {
    Data(kind, side, request.callId, |s.posted|, request.tag)
  }

  /** The next message for `to` arrives: what becomes of it, and of the receiver. */
  predicate Arrives(s: System, t: System, to: Side, known: bool)
    requires Waiting(s, to)
  {
    var (p, q, e) := (s.Get(to), t.Get(to), Next(s, to));
    var response := Reply(s, to, HandshakeResponse, e.data);
    && t.Get(Other(to)) == s.Get(Other(to)).(fates := t.Get(Other(to)).fates)
    && |t.Get(Other(to)).fates| == |s.Get(Other(to)).fates| + 1
    && t.Get(Other(to)).fates[..|s.Get(Other(to)).fates|] == s.Get(Other(to)).fates
    && t == s.(main := t.main, frame := t.frame, posted := t.posted)
    && var fate := t.Get(Other(to)).fates[|s.Get(Other(to)).fates|];
       if e.data.kind.HandshakeRequest? then
         && fate.Accepted? && t.posted == s.posted + [response]
         && Sends(Emptied(Joined(p, e.session, true)), q, [response] + p.proxy.pending)
       else
         && t.posted == s.posted
         && if Stale(s, to, known) then fate.Discarded? && q == p
            else if e.data.kind.Answers() then
              && e.data.callId in p.proxy.calls
              && fate == Settled(p.proxy.calls[e.data.callId])
              && if p.proxy.calls[e.data.callId].kind.HandshakeRequest?
                 then Sends(Emptied(Closed(p, e.data.callId)), q, p.proxy.pending)
                 else q == Closed(p, e.data.callId)
            else
              fate.Accepted? && q == p.(owes := p.owes + if e.data.kind.Call? then {e.data} else {})
  }

  /** The states the protocol can be in, as far as deliveries depend on it. */
  ghost predicate Sound(s: System) {
    && SessionsHold(s)
    && (forall k | k in s.main.proxy.calls :: s.main.proxy.calls[k].callId == k)
    && (forall k | k in s.frame.proxy.calls :: s.frame.proxy.calls[k].callId == k)
  }

  lemma RunsAreSound(events: seq<Event>)
    ensures Sound(Run(START, events))
  {
    RunsHoldSessions(events);
    IframeCalls.RunsHoldCalls(events);
    hide SessionsHold, Run;
  }

  lemma WriteHands(s: System, side: Side, kind: Kind, callId: nat, cause: nat)
    ensures
      var (t, d) := (Write(s, side, kind, callId, cause), Data(kind, side, callId, |s.posted|, cause));
      && t == s.Set(side, t.Get(side)).(posted := s.posted + [d])
      && Hands(s.Get(side), t.Get(side), d)
  {
  }

  lemma FlushSends(s: System, side: Side)
    requires s.Get(side).proxy.remote
    ensures
      var t := FlushSide(s, side);
      && t == s.Set(side, t.Get(side))
      && Sends(Emptied(s.Get(side)), t.Get(side), s.Get(side).proxy.pending)
  {
  }

  lemma SendsInTurn(p: Party, q: Party, r: Party, d: Data, ds: seq<Data>)
    requires Sends(p, q, [d]) && Sends(Emptied(q), r, ds)
    ensures Sends(Emptied(p), r, [d] + ds)
  {
    assert r.channel[|p.channel|..] == q.channel[|p.channel|..] + r.channel[|q.channel|..];
  }

  /** A handshake request is answered under its own session, and what waited goes out behind the answer. */
  lemma GreetingSends(s: System, to: Side, e: Envelope)
    ensures
      var (t, response) := (Greeted(s, to, e), Reply(s, to, HandshakeResponse, e.data));
      && t == s.Set(to, t.Get(to)).(posted := s.posted + [response])
      && Sends(Emptied(Joined(s.Get(to), e.session, true)), t.Get(to), [response] + s.Get(to).proxy.pending)
  {
    hide Write, FlushSide, Sends;
    var u := WithSession(s, to, e.session, true);
    var v := Write(u, to, HandshakeResponse, e.data.callId, e.data.tag);
    WriteHands(u, to, HandshakeResponse, e.data.callId, e.data.tag);
    SentKeepsProxy(u.Get(to), v.Get(to), [Reply(s, to, HandshakeResponse, e.data)]);
    FlushSends(v, to);
    SendsInTurn(u.Get(to), v.Get(to), FlushSide(v, to).Get(to), Reply(s, to, HandshakeResponse, e.data),
                s.Get(to).proxy.pending);
  }

  lemma SentKeepsProxy(p: Party, q: Party, ds: seq<Data>)
    requires Sends(p, q, ds)
    ensures q.proxy == p.proxy
  {
  }

  /** A completed handshake sends what waited. */
  lemma SettlingSends(s: System, to: Side, request: Data)
    requires s.Get(to).proxy.remote
    ensures
      var t := Settle(s, to, request);
      && t == s.Set(to, t.Get(to))
      && if request.kind.HandshakeRequest?
         then Sends(Emptied(Closed(s.Get(to), request.callId)), t.Get(to), s.Get(to).proxy.pending)
         else t.Get(to) == Closed(s.Get(to), request.callId)
  {
    hide FlushSide, Sends;
    var p := s.Get(to).proxy;
    assert p.calls - {request.callId} == map k | k in p.calls && k != request.callId :: p.calls[k];
    assert StopListening(s, to, request.callId).Get(to) == Closed(s.Get(to), request.callId);
    if request.kind.HandshakeRequest? {
      FlushSends(StopListening(s, to, request.callId), to);
    }
  }

  lemma DeliveryOutcome(s: System, to: Side, known: bool)
    requires Sound(s) && Waiting(s, to)
    ensures Arrives(s, Delivered(s, to, known), to, known)
  {
    hide Greeted, Settle, Sends;
    var e := Next(s, to);
    var fate := FateOf(s.Get(to).proxy, e, known);
    var t := Take(s, to, fate);
    DiscardsTheStale(s, to, known);
    if e.data.kind.HandshakeRequest? {
      GreetingSends(t, to, e);
    } else if fate.Settled? {
      assert s.Get(to).proxy.remote;
      SettlingSends(t, to, fate.request);
    }
  }

  /** What an event does. */
  predicate Happens(s: System, e: Event, t: System) {
    match e
    case PostMessage(side) =>
      var d := Data(Plain, side, 0, |s.posted|, 0);
      t == s.Set(side, t.Get(side)).(posted := s.posted + [d]) && Hands(s.Get(side), t.Get(side), d)
    case MakeCall(side) =>
      var d := Request(s, side, Call);
      t == s.Set(side, t.Get(side)).(posted := s.posted + [d]) && Hands(Opened(s.Get(side), d), t.Get(side), d)
    case Answer(side, request) =>
      if request in s.Get(side).owes then
        var d := Reply(s, side, Response, request);
        var p := s.Get(side).(owes := s.Get(side).owes - {request});
        t == s.Set(side, t.Get(side)).(posted := s.posted + [d]) && Hands(p, t.Get(side), d)
      else t == s
    case Timeout(side, callId) => t == s.Set(side, Closed(s.Get(side), callId))
    case Deliver(side, known) => if Waiting(s, side) then Arrives(s, t, side, known) else t == s
    case InitiateHandshake =>
      var d := Request(s, Main, HandshakeRequest);
      && t == s.(main := t.main, sessions := s.sessions + 1, posted := s.posted + [d])
      && Sends(Opened(Joined(s.main, Some(s.sessions), true), d), t.main, [d])
    case Invalidate => t == s.(main := Joined(s.main, None, false))
    case Reload =>
      && t == s.(main := t.main, frame := t.frame)
      && t.main == s.main.(fates := t.main.fates)
      && |t.main.fates| == |s.main.channel| && |s.main.fates| <= |t.main.fates|
      && t.main.fates[..|s.main.fates|] == s.main.fates
      && (forall i | |s.main.fates| <= i < |t.main.fates| :: t.main.fates[i].Discarded?)
      && t.frame == Party(Proxy(None, false, [], map[]), s.frame.channel, s.frame.fates,
                          s.frame.dropped + s.frame.proxy.pending, 0, |s.posted|, {})
    case OtherHandshake =>
      t == s.(sessions := s.sessions + 1, others := s.others + {s.sessions},
              otherCalls := s.otherCalls + {s.main.nextCall}, main := s.main.(nextCall := s.main.nextCall + 1))
    case OtherCall =>
      t == s.(otherCalls := s.otherCalls + {s.main.nextCall}, main := s.main.(nextCall := s.main.nextCall + 1))
  }

  lemma AskHands(s: System, side: Side, kind: Kind)
    ensures
      var (t, d) := (Ask(s, side, kind), Request(s, side, kind));
      t == s.Set(side, t.Get(side)).(posted := s.posted + [d]) && Hands(Opened(s.Get(side), d), t.Get(side), d)
  {
    hide Write, Hands;
    WriteHands(Listen(s, side, kind), side, kind, s.Get(side).nextCall, 0);
  }

  lemma StepOutcome(s: System, e: Event)
    requires Sound(s)
    ensures Happens(s, e, Step(s, e))
  {
    hide Write, Ask, Hands, Delivered, Arrives;
    match e {
      case PostMessage(side) => WriteHands(s, side, Plain, 0, 0);
      case MakeCall(side) => AskHands(s, side, Call);
      case Answer(side, request) =>
        if request in s.Get(side).owes {
          WriteHands(Owe(s, side, s.Get(side).owes - {request}), side, Response, request.callId, request.tag);
        }
      case Timeout(side, callId) => TimeoutCloses(s, side, callId);
      case Deliver(side, known) =>
        if Waiting(s, side) {
          DeliveryOutcome(s, side, known);
        } else {
          NothingArrives(s, side, known);
        }
      case InitiateHandshake => HandshakeSends(s);
      case Reload => ReloadLoses(s);
      case _ =>
    }
  }

  lemma TimeoutCloses(s: System, side: Side, callId: nat)
    ensures StopListening(s, side, callId) == s.Set(side, Closed(s.Get(side), callId))
  {
    var p := s.Get(side).proxy;
    assert p.calls - {callId} == map k | k in p.calls && k != callId :: p.calls[k];
  }

  lemma NothingArrives(s: System, side: Side, known: bool)
    requires !Waiting(s, side)
    ensures Delivered(s, side, known) == s
  {
  }

  lemma HandshakeSends(s: System)
    ensures Happens(s, InitiateHandshake, Step(s, InitiateHandshake))
  {
    hide Ask;
    AskHands(WithSession(s, Main, Some(s.sessions), true), Main, HandshakeRequest);
  }

  lemma ReloadLoses(s: System)
    requires |s.main.fates| <= |s.main.channel|
    ensures Happens(s, Reload, Reloaded(s))
  {
  }

  /** In every run each event does what is described. */
  lemma EveryEventDoesItsPart(events: seq<Event>, e: Event)
    ensures var s := Run(START, events); Happens(s, e, Step(s, e))
  {
    hide Sound, Happens, Step, Run;
    RunsAreSound(events);
    StepOutcome(Run(START, events), e);
  }

  /**
   * In every run: when a delivery settles a handshake of a side, that side's queue is empty and all that waited in it
   * has gone out behind what was sent before, in order and under the present session.
   */
  lemma SettledHandshakesSendTheQueue(events: seq<Event>, to: Side, known: bool)
    requires Waiting(Run(START, events), to)
    requires
      var s := Run(START, events);
      var fate := FateOf(s.Get(to).proxy, Next(s, to), known);
      fate.Settled? && fate.request.kind.HandshakeRequest?
    ensures
      var s := Run(START, events);
      var (p, q) := (s.Get(to), Step(s, Deliver(to, known)).Get(to));
      && q.proxy.pending == [] && q.proxy.session == p.proxy.session
      && |q.channel| == |p.channel| + |p.proxy.pending| && q.channel[..|p.channel|] == p.channel
      && forall i | 0 <= i < |p.proxy.pending| ::
           q.channel[|p.channel| + i] == Envelope(p.proxy.session, p.proxy.pending[i])
  {
    hide Step, Run;
    var s := Run(START, events);
    EveryEventDoesItsPart(events, Deliver(to, known));
    RunsAreSound(events);
    DiscardsTheStale(s, to, known);
    assert !Next(s, to).data.kind.HandshakeRequest?;
    SentInOrder(Emptied(Closed(s.Get(to), Next(s, to).data.callId)), Step(s, Deliver(to, known)).Get(to),
                s.Get(to).proxy.pending);
  }

  lemma SentInOrder(p: Party, q: Party, ds: seq<Data>)
    requires Sends(p, q, ds)
    ensures q.proxy == p.proxy && |q.channel| == |p.channel| + |ds| && q.channel[..|p.channel|] == p.channel
    ensures forall i | 0 <= i < |ds| :: q.channel[|p.channel| + i] == Envelope(p.proxy.session, ds[i])
  {
    forall i | 0 <= i < |ds| ensures q.channel[|p.channel| + i] == Envelope(p.proxy.session, ds[i]) {
      assert q.channel[|p.channel|..][i] == q.channel[|p.channel| + i];
    }
  }

  // ---------------------------------------------------------------- the proxy objects

  /** What a delivery does to the receiver is what the objects' `Greet` and `OnResponse` do. */
  lemma DeliveriesAreTheProxys(s: System, to: Side, known: bool)
    requires Sound(s) && Waiting(s, to)
    ensures
      var (p, q, e) := (s.Get(to), Delivered(s, to, known).Get(to), Next(s, to));
      && e.session.Some? && (p.proxy.session.Some? ==> p.proxy.remote)
      && (q.proxy, q.channel) ==
         if e.data.kind.HandshakeRequest?
         then AfterRequest(p.proxy, p.channel, e, Reply(s, to, HandshakeResponse, e.data))
         else if e.data.kind.Answers() then AfterResponse(p.proxy, p.channel, e)
         else (p.proxy, p.channel)
  {
    var e := Next(s, to);
    assert e in s.Get(Other(to)).channel;
  }

  /** What a side does of itself is what the objects' `PostMessage`, `MakeAsyncCall` and `InitiateHandshake` do. */
  lemma EventsAreTheProxys(s: System, side: Side)
    ensures
      var (p, q) := (s.Get(side), Step(s, PostMessage(side)).Get(side));
      (q.proxy, q.channel) == Post(p.proxy, p.channel, Data(Plain, side, 0, |s.posted|, 0))
    ensures
      var (p, q) := (s.Get(side), Step(s, MakeCall(side)).Get(side));
      (q.proxy, q.channel) == AfterCall(p.proxy, p.channel, Request(s, side, Call)) && q.nextCall == p.nextCall + 1
    ensures
      var (p, t) := (s.main, Step(s, InitiateHandshake));
      && (t.main.proxy, t.main.channel)
         == AfterHandshake(p.proxy, p.channel, s.sessions, Request(s, Main, HandshakeRequest))
      && t.main.nextCall == p.nextCall + 1 && t.sessions == s.sessions + 1
    ensures
      var (p, q) := (s.main, Step(s, Invalidate).main);
      q.proxy == p.proxy.(session := None, remote := false) && q.channel == p.channel
  {
  }
}
