/** When the iframe proxy keeps the order in which messages are posted. */
module IframeOrder {
  import opened Common
  import opened IframeProxy
  import opened IframeProtocol
  import opened IframeConservation

  /** A message that is not part of a handshake. */
  predicate Ordinary(d: Data) {
    !d.kind.HandshakeRequest? && !d.kind.HandshakeResponse?
  }

  /** The messages of one side as the other side will see them. */
  ghost function Line(p: Party): seq<Data> {
    Bodies(p.channel) + p.proxy.pending
  }

  /** Ordinary messages stand in the order in which they were posted. */
  ghost predicate InOrder(line: seq<Data>) {
    forall i, j | 0 <= i < j < |line| && Ordinary(line[i]) && Ordinary(line[j]) :: line[i].tag < line[j].tag
  }

  /** Only ordinary messages wait, and all messages of the line were posted before number `n`. */
  ghost predicate Queued(p: Party, n: nat) {
    && (forall d | d in p.proxy.pending :: Ordinary(d) && d.tag < n)
    && (forall e | e in p.channel :: e.data.tag < n)
  }

  /** `side` posts an ordinary message while older ones still wait for the handshake to complete. */
  predicate Overtakes(s: System, event: Event, side: Side) {
    && s.Get(side).proxy.remote
    && s.Get(side).proxy.pending != []
    && match event
       case PostMessage(who) => who == side
       case MakeCall(who) => who == side
       case Answer(who, request) => who == side && request in s.Get(side).owes
       case _ => false
  }

  predicate Overtaken(s: System, events: seq<Event>, side: Side)
    decreases |events|
  {
    events != [] && (Overtakes(s, events[0], side) || Overtaken(Step(s, events[0]), events[1..], side))
  }

  lemma InsertedOrdinary(a: seq<Data>, d: Data, b: seq<Data>)
    requires Ordinary(d) && forall x | x in a + b :: x.tag < d.tag
    requires forall x | x in b :: Ordinary(x)
    ensures InOrder(a + [d] + b) <==> InOrder(a + b) && b == []
  {
    var line := a + [d] + b;
    if b == [] {
      assert a + b == a && line == a + [d];
      assert forall i | 0 <= i < |a| :: line[i] == a[i] && a[i] in a + b;
    } else {
      assert line[|a|] == d && line[|a| + 1] == b[0] && b[0] in a + b;
    }
  }

  lemma InsertedHandshake(a: seq<Data>, d: Data, b: seq<Data>)
    requires !Ordinary(d)
    ensures InOrder(a + [d] + b) <==> InOrder(a + b)
  {
    var line, rest := a + [d] + b, a + b;
    if InOrder(line) {
      forall i, j | 0 <= i < j < |rest| && Ordinary(rest[i]) && Ordinary(rest[j]) ensures rest[i].tag < rest[j].tag {
        var k, l := if i < |a| then i else i + 1, if j < |a| then j else j + 1;
        assert rest[i] == line[k] && rest[j] == line[l];
      }
    }
    if InOrder(rest) {
      forall i, j | 0 <= i < j < |line| && Ordinary(line[i]) && Ordinary(line[j]) ensures line[i].tag < line[j].tag {
        var k, l := if i < |a| then i else i - 1, if j < |a| then j else j - 1;
        assert line[i] == rest[k] && line[j] == rest[l];
      }
    }
  }

  /** Both sides' lines are well formed. */
  ghost predicate Lines(s: System) {
    Queued(s.main, |s.posted|) && Queued(s.frame, |s.posted|)
  }

  lemma WriteOrders(s: System, side: Side, kind: Kind, callId: nat, cause: nat)
    requires Lines(s)
    requires kind.HandshakeRequest? || kind.HandshakeResponse? ==> s.Get(side).proxy.remote
    ensures
      var t := Write(s, side, kind, callId, cause);
      var p := s.Get(side);
      && Lines(t)
      && t.Get(Other(side)) == s.Get(Other(side))
      && (InOrder(Line(t.Get(side))) <==>
          InOrder(Line(p)) && (!kind.HandshakeRequest? && !kind.HandshakeResponse? ==>
            !p.proxy.remote || p.proxy.pending == []))
  {
    var p := s.Get(side);
    var t := Write(s, side, kind, callId, cause);
    var d := Data(kind, side, callId, |s.posted|, cause);
    var a, b := Bodies(p.channel), p.proxy.pending;
    assert forall x | x in a :: exists i | 0 <= i < |a| :: x == p.channel[i].data && p.channel[i] in p.channel;
    if p.proxy.remote {
      assert Stamp(p.proxy.session, [d]) == [Envelope(p.proxy.session, d)];
      BodiesOfMore(p.channel, p.proxy.session, [d]);
      assert Line(t.Get(side)) == a + [d] + b;
      if Ordinary(d) {
        InsertedOrdinary(a, d, b);
      } else {
        InsertedHandshake(a, d, b);
      }
    } else {
      assert Line(t.Get(side)) == (a + b) + [d] + [] && Line(p) == (a + b) + [];
      InsertedOrdinary(a + b, d, []);
    }
  }

  /** Sending what waited changes no order. */
  lemma FlushOrders(s: System, side: Side)
    requires Lines(s)
    ensures
      var t := FlushSide(s, side);
      Lines(t) && t.Get(Other(side)) == s.Get(Other(side)) && Line(t.Get(side)) == Line(s.Get(side))
  {
    var p := s.Get(side);
    if p.proxy.remote {
      BodiesOfMore(p.channel, p.proxy.session, p.proxy.pending);
      forall e | e in p.channel + Stamp(p.proxy.session, p.proxy.pending) ensures e.data.tag < |s.posted| {
        if e !in p.channel {
          assert e.data in p.proxy.pending;
        }
      }
    }
  }

  predicate SameLines(s: System, t: System) {
    && s.posted == t.posted
    && s.main.proxy.pending == t.main.proxy.pending && s.main.channel == t.main.channel
    && s.frame.proxy.pending == t.frame.proxy.pending && s.frame.channel == t.frame.channel
  }

  lemma AskOrders(s: System, side: Side, kind: Kind)
    requires Lines(s) && kind.Asks()
    requires kind.HandshakeRequest? ==> s.Get(side).proxy.remote
    ensures
      var t := Ask(s, side, kind);
      var p := s.Get(side);
      && Lines(t)
      && Line(t.Get(Other(side))) == Line(s.Get(Other(side)))
      && (InOrder(Line(t.Get(side))) <==>
          InOrder(Line(p)) && (kind.Call? ==> !p.proxy.remote || p.proxy.pending == []))
  {
    hide InOrder, Queued, Write;
    var t := Listen(s, side, kind);
    KeepLines(s, t);
    WriteOrders(t, side, kind, s.Get(side).nextCall, 0);
  }

  lemma KeepLines(s: System, t: System)
    requires Lines(s) && SameLines(s, t)
    ensures Lines(t) && Line(s.main) == Line(t.main) && Line(s.frame) == Line(t.frame)
  {
  }

  /** Neither delivery nor the handshake it may complete changes the order of ordinary messages. */
  lemma DeliveredOrders(s: System, to: Side, known: bool)
    requires Lines(s)
    ensures
      var t := Delivered(s, to, known);
      && Lines(t)
      && (InOrder(Line(t.main)) <==> InOrder(Line(s.main)))
      && (InOrder(Line(t.frame)) <==> InOrder(Line(s.frame)))
  {
    hide InOrder, Queued, Write, FlushSide, Line;
    if Waiting(s, to) {
      var e := Next(s, to);
      var fate := FateOf(s.Get(to).proxy, e, known);
      var t := Take(s, to, fate);
      KeepLines(s, t);
      if e.data.kind.HandshakeRequest? {
        var u := WithSession(t, to, e.session, true);
        KeepLines(t, u);
        WriteOrders(u, to, HandshakeResponse, e.data.callId, e.data.tag);
        FlushOrders(Write(u, to, HandshakeResponse, e.data.callId, e.data.tag), to);
      } else if fate.Settled? {
        var u := StopListening(t, to, fate.request.callId);
        KeepLines(t, u);
        FlushOrders(u, to);
      } else {
        KeepLines(t, Owe(t, to, t.Get(to).owes + {e.data}));
      }
    }
  }

  lemma StepOrders(s: System, event: Event, side: Side)
    requires Lines(s)
    requires side.Main? || event != Reload
    ensures Lines(Step(s, event))
    ensures InOrder(Line(Step(s, event).Get(side))) <==> InOrder(Line(s.Get(side))) && !Overtakes(s, event, side)
  {
    hide InOrder, Queued, Write, Delivered, Line, FlushSide, Ask;
    match event
    case PostMessage(who) => WriteOrders(s, who, Plain, 0, 0);
    case MakeCall(who) => AskOrders(s, who, Call);
    case Answer(who, request) =>
      var t := Owe(s, who, s.Get(who).owes - {request});
      KeepLines(s, t);
      WriteOrders(t, who, Response, request.callId, request.tag);
    case Deliver(to, known) => DeliveredOrders(s, to, known);
    case InitiateHandshake =>
      var t := WithSession(s, Main, Some(s.sessions), true);
      KeepLines(s, t);
      AskOrders(t, Main, HandshakeRequest);
      KeepLines(Ask(t, Main, HandshakeRequest), Step(s, event));
    case Reload => ReloadOrders(s);
    case _ => KeepLines(s, Step(s, event));
  }

  lemma ReloadOrders(s: System)
    requires Lines(s)
    ensures Lines(Reloaded(s)) && Line(Reloaded(s).main) == Line(s.main)
  {
  }

  lemma {:induction false} MainRunOrders(s: System, events: seq<Event>)
    requires Lines(s)
    ensures InOrder(Line(Run(s, events).main)) <==> InOrder(Line(s.main)) && !Overtaken(s, events, Main)
    decreases |events|
  {
    hide InOrder, Lines, Step, Line, Overtakes;
    if events != [] {
      StepOrders(s, events[0], Main);
      MainRunOrders(Step(s, events[0]), events[1..]);
    }
  }

  /** The frame knows the remote window only once it has sent what waited. */
  predicate FrameReady(s: System) {
    s.frame.proxy.remote ==> s.frame.proxy.pending == []
  }

  lemma StepKeepsReady(s: System, event: Event)
    requires FrameReady(s)
    ensures FrameReady(Step(s, event))
    ensures !Overtakes(s, event, Frame)
  {
    if event.Deliver? && Waiting(s, event.side) {
      DeliveredKeepsReady(s, event.side, event.known);
    }
  }

  lemma DeliveredKeepsReady(s: System, to: Side, known: bool)
    requires FrameReady(s)
    ensures FrameReady(Delivered(s, to, known))
  {
    hide FateOf;
    if Waiting(s, to) {
      var t := Take(s, to, FateOf(s.Get(to).proxy, Next(s, to), known));
      assert FrameReady(t) && t.frame.proxy == s.frame.proxy;
    }
  }

  lemma ReloadedFrameIsInOrder(s: System)
    requires InOrder(Line(s.frame))
    ensures InOrder(Line(Reloaded(s).frame))
  {
    var sent := Bodies(s.frame.channel);
    assert forall i | 0 <= i < |sent| :: Line(s.frame)[i] == sent[i];
    assert Line(Reloaded(s).frame) == sent;
  }

  lemma {:induction false} FrameRunOrders(s: System, events: seq<Event>)
    requires Lines(s) && FrameReady(s) && InOrder(Line(s.frame))
    ensures InOrder(Line(Run(s, events).frame)) && !Overtaken(s, events, Frame)
    decreases |events|
  {
    if events != [] {
      StepKeepsReady(s, events[0]);
      hide InOrder, Lines, Line, Overtakes, FrameReady;
      if events[0] == Reload {
        assert Step(s, events[0]) == Reloaded(s);
        ReloadedFrameIsInOrder(s);
        StepOrders(s, events[0], Main);
      } else {
        StepOrders(s, events[0], Frame);
      }
      hide Step;
      FrameRunOrders(Step(s, events[0]), events[1..]);
    }
  }

  /**
   * The ordinary messages of a side reach the channel in the order they were posted, exactly when that side never
   * posts one while others are queued and the remote window is already known (line 38 makes it known before the
   * handshake is answered).
   */
  lemma OrderIsKeptExactlyWhen(events: seq<Event>, side: Side)
    ensures InOrder(Line(Run(START, events).Get(side))) <==> !Overtaken(START, events, side)
  {
    assert Lines(START) && Line(START.main) == [] && Line(START.frame) == [];
    if side.Main? {
      MainRunOrders(START, events);
    } else {
      FrameRunOrders(START, events);
    }
  }

  /** The frame always keeps the order, whatever is reloaded: it greets and sends what waited in one go. */
  lemma TheFrameKeepsTheOrder(events: seq<Event>)
    ensures InOrder(Line(Run(START, events).frame))
  {
    assert Lines(START) && Line(START.frame) == [];
    FrameRunOrders(START, events);
  }

  /** It does happen: a message queued before the handshake is overtaken by one posted right after it began. */
  lemma OvertakingHappens()
    ensures
      var s := Run(START, [PostMessage(Main), InitiateHandshake, PostMessage(Main)]);
      && Overtaken(START, [PostMessage(Main), InitiateHandshake, PostMessage(Main)], Main)
      && s.main.channel[|s.main.channel| - 1].data == s.posted[2]
      && s.main.proxy.pending == [s.posted[0]]
  {
    var events := [PostMessage(Main), InitiateHandshake, PostMessage(Main)];
    var one := Step(START, events[0]);
    var two := Step(one, events[1]);
    var three := Step(two, events[2]);
    assert events[1..] == [InitiateHandshake, PostMessage(Main)] && events[1..][1..] == [PostMessage(Main)];
    assert Overtakes(two, events[2], Main);
    assert Run(two, [PostMessage(Main)]) == Run(three, []);
  }
}
