/** No message of the iframe proxy protocol is lost or duplicated, and when its order is kept. */
module IframeConservation {
  import opened Common
  import opened IframeProxy
  import opened IframeProtocol

  ghost function Bodies(es: seq<Envelope>): (ds: seq<Data>)
    ensures |ds| == |es|
    ensures forall i | 0 <= i < |es| :: ds[i] == es[i].data
  {
    seq(|es|, i requires 0 <= i < |es| => es[i].data)
  }

  /** Every message a side has handed to `postMessage`, wherever it is. */
  ghost function Held(p: Party): multiset<Data> {
    multiset(p.proxy.pending) + multiset(Bodies(p.channel)) + multiset(p.dropped)
  }

  /** Every message is in exactly one place, and only messages that were sent have been taken. */
  ghost predicate Accounted(s: System) {
    && (forall i | 0 <= i < |s.posted| :: s.posted[i].tag == i)
    && multiset(s.posted) == Held(s.main) + Held(s.frame)
    && |s.main.fates| <= |s.main.channel|
    && |s.frame.fates| <= |s.frame.channel|
  }

  lemma BodiesOfMore(es: seq<Envelope>, session: Option<nat>, ds: seq<Data>)
    ensures Bodies(es + Stamp(session, ds)) == Bodies(es) + ds
  {
  }

  lemma WriteIsAccounted(s: System, side: Side, kind: Kind, callId: nat, cause: nat)
    requires Accounted(s)
    ensures Accounted(Write(s, side, kind, callId, cause))
  {
    var p := s.Get(side);
    var d := Data(kind, side, callId, |s.posted|, cause);
    assert Stamp(p.proxy.session, [d]) == [Envelope(p.proxy.session, d)];
    BodiesOfMore(p.channel, p.proxy.session, [d]);
  }

  lemma FlushIsAccounted(s: System, side: Side)
    requires Accounted(s)
    ensures Accounted(FlushSide(s, side))
  {
    var p := s.Get(side);
    BodiesOfMore(p.channel, p.proxy.session, p.proxy.pending);
  }

  lemma TakeIsAccounted(s: System, to: Side, fate: Fate)
    requires Accounted(s) && Waiting(s, to)
    ensures Accounted(Take(s, to, fate))
  {
    hide Held;
    SameHeld(s, Take(s, to, fate));
  }

  lemma GreetedIsAccounted(s: System, to: Side, e: Envelope)
    requires Accounted(s)
    ensures Accounted(Greeted(s, to, e))
  {
    var t := WithSession(s, to, e.session, true);
    SameHeld(s, t);
    hide Held, FlushSide, Write;
    WriteIsAccounted(t, to, HandshakeResponse, e.data.callId, e.data.tag);
    FlushIsAccounted(Write(t, to, HandshakeResponse, e.data.callId, e.data.tag), to);
  }

  lemma SettleIsAccounted(s: System, to: Side, request: Data)
    requires Accounted(s)
    ensures Accounted(Settle(s, to, request))
  {
    var t := StopListening(s, to, request.callId);
    SameHeld(s, t);
    hide Held, FlushSide;
    FlushIsAccounted(t, to);
  }

  lemma OweIsAccounted(s: System, side: Side, owes: set<Data>)
    requires Accounted(s)
    ensures Accounted(Owe(s, side, owes))
  {
    hide Held;
    SameHeld(s, Owe(s, side, owes));
  }

  lemma DeliveredIsAccounted(s: System, to: Side, known: bool)
    requires Accounted(s)
    ensures Accounted(Delivered(s, to, known))
  {
    hide Accounted, Greeted, Settle, Owe, Take, FateOf;
    if Waiting(s, to) {
      var e := Next(s, to);
      var fate := FateOf(s.Get(to).proxy, e, known);
      var t := Take(s, to, fate);
      TakeIsAccounted(s, to, fate);
      GreetedIsAccounted(t, to, e);
      OweIsAccounted(t, to, t.Get(to).owes + {e.data});
      if fate.Settled? {
        SettleIsAccounted(t, to, fate.request);
      }
    }
  }

  predicate SameMessages(p: Party, q: Party) {
    p.proxy.pending == q.proxy.pending && p.channel == q.channel && p.dropped == q.dropped
  }

  lemma SameHeld(s: System, t: System)
    ensures
      && (SameMessages(s.main, t.main) ==> Held(s.main) == Held(t.main))
      && (SameMessages(s.frame, t.frame) ==> Held(s.frame) == Held(t.frame))
  {
  }

  lemma StepIsAccounted(s: System, event: Event)
    requires Accounted(s)
    ensures Accounted(Step(s, event))
  {
    hide Held, Write, Delivered, FlushSide;
    match event
    case PostMessage(side) => WriteIsAccounted(s, side, Plain, 0, 0);
    case MakeCall(side) => AskIsAccounted(s, side, Call);
    case Answer(side, request) =>
      var t := Owe(s, side, s.Get(side).owes - {request});
      SameHeld(s, t);
      WriteIsAccounted(t, side, Response, request.callId, request.tag);
    case Deliver(side, known) => DeliveredIsAccounted(s, side, known);
    case InitiateHandshake =>
      var t := WithSession(s, Main, Some(s.sessions), true);
      SameHeld(s, t);
      AskIsAccounted(t, Main, HandshakeRequest);
    case Reload => ReloadIsAccounted(s);
    case _ => SameHeld(s, Step(s, event));
  }

  lemma AskIsAccounted(s: System, side: Side, kind: Kind)
    requires Accounted(s)
    ensures Accounted(Ask(s, side, kind))
  {
    hide Held, Write;
    SameHeld(s, Listen(s, side, kind));
    WriteIsAccounted(Listen(s, side, kind), side, kind, s.Get(side).nextCall, 0);
  }

  lemma ReloadIsAccounted(s: System)
    requires Accounted(s)
    ensures Accounted(Reloaded(s))
  {
    assert multiset(s.frame.dropped + s.frame.proxy.pending) ==
           multiset(s.frame.dropped) + multiset(s.frame.proxy.pending);
  }

  lemma {:induction false} RunIsAccounted(s: System, events: seq<Event>)
    requires Accounted(s)
    ensures Accounted(Run(s, events))
    decreases |events|
  {
    hide Accounted, Step;
    if events != [] {
      StepIsAccounted(s, events[0]);
      RunIsAccounted(Step(s, events[0]), events[1..]);
    }
  }

  /** How often a message is queued, has been sent and was dropped. */
  ghost function Places(p: Party, d: Data): nat {
    multiset(p.proxy.pending)[d] + multiset(Bodies(p.channel))[d] + multiset(p.dropped)[d]
  }

  /**
   * Conservation: after any run, each message handed to `postMessage` is queued, or in the channel, or went away with
   * its document, in one place only; in the channel the first `|fates|` messages have each met one fate and the
   * others are on their way.
   */
  lemma EveryMessageIsInOnePlace(events: seq<Event>, i: nat)
    requires i < |Run(START, events).posted|
    ensures
      var s := Run(START, events);
      && Places(s.main, s.posted[i]) + Places(s.frame, s.posted[i]) == 1
      && |s.main.fates| <= |s.main.channel|
      && |s.frame.fates| <= |s.frame.channel|
  {
    assert Accounted(START);
    RunIsAccounted(START, events);
    var s := Run(START, events);
    OnlyOnce(s.posted, i);
    assert multiset(s.posted)[s.posted[i]] == (Held(s.main) + Held(s.frame))[s.posted[i]];
  }

  lemma OnlyOnce(posted: seq<Data>, i: nat)
    requires i < |posted|
    requires forall k | 0 <= k < |posted| :: posted[k].tag == k
    ensures multiset(posted)[posted[i]] == 1
  {
    var d := posted[i];
    assert posted == posted[..i] + [d] + posted[i + 1..];
    assert d !in posted[..i] && d !in posted[i + 1..];
  }
}
