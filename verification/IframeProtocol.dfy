/** The two ends of the iframe proxy protocol, the channels between them and every run of the two. */
module IframeProtocol {
  import opened Common
  import opened IframeProxy

  /**
   * One end. `channel` is all it has posted, of which the first `|fates|` messages have been taken out by the other
   * end; `dropped` is what it queued but never sent before its document went away, and `since` the number of
   * messages there were when the present document was loaded. `owes` holds the calls it has yet to answer.
   */
  datatype Party = Party(
    proxy: Proxy, channel: seq<Envelope>, fates: seq<Fate>, dropped: seq<Data>,
    nextCall: nat, since: nat, owes: set<Data>)

  /**
   * `sessions` counts the sessions the main window has given out, `others` are those of its other proxies and
   * `otherCalls` the call ids these took; `posted` is every message handed to `postMessage`, in order.
   */
  datatype System = System(
    main: Party, frame: Party, sessions: nat, others: set<nat>, otherCalls: set<nat>, posted: seq<Data>)
  {
    function Get(side: Side): Party {
      if side.Main? then main else frame
    }

    function Set(side: Side, p: Party): System {
      if side.Main? then this.(main := p) else this.(frame := p)
    }
  }

  datatype Event =
    | PostMessage(side: Side)
    | MakeCall(side: Side)
    | Answer(side: Side, request: Data)
    | Timeout(side: Side, callId: nat)
    | Deliver(side: Side, known: bool)
    | InitiateHandshake
    | Invalidate
    | Reload
    | OtherHandshake
    | OtherCall

  const NEW_PARTY := Party(NEW_PROXY, [], [], [], 0, 0, {})

  const START := System(NEW_PARTY, NEW_PARTY, 0, {}, {}, [])

  function Other(side: Side): Side {
    if side.Main? then Frame else Main
  }

  /** Hands a message to the `postMessage` of one side. */
  function Write(s: System, side: Side, kind: Kind, callId: nat, cause: nat): System {
    var d := Data(kind, side, callId, |s.posted|, cause);
    var p := s.Get(side);
    var (x, c) := Post(p.proxy, p.channel, d);
    s.Set(side, p.(proxy := x, channel := c)).(posted := s.posted + [d])
  }

  function FlushSide(s: System, side: Side): System {
    var p := s.Get(side);
    if p.proxy.remote then
      var (x, c) := Flush(p.proxy, p.channel);
      s.Set(side, p.(proxy := x, channel := c))
    else s
  }

  /** Takes the next call id of a side and starts listening. */
  function Listen(s: System, side: Side, kind: Kind): System {
    var p := s.Get(side);
    var d := Data(kind, side, p.nextCall, |s.posted|, 0);
    s.Set(side, p.(proxy := p.proxy.(calls := p.proxy.calls[p.nextCall := d]), nextCall := p.nextCall + 1))
  }

  function Ask(s: System, side: Side, kind: Kind): System {
    Write(Listen(s, side, kind), side, kind, s.Get(side).nextCall, 0)
  }

  function WithSession(s: System, side: Side, session: Option<nat>, remote: bool): System {
    var p := s.Get(side);
    s.Set(side, p.(proxy := p.proxy.(session := session, remote := remote)))
  }

  function StopListening(s: System, side: Side, callId: nat): System {
    var p := s.Get(side);
    s.Set(side, p.(proxy := p.proxy.(calls := p.proxy.calls - {callId})))
  }

  function Owe(s: System, side: Side, owes: set<Data>): System {
    s.Set(side, s.Get(side).(owes := owes))
  }

  predicate Waiting(s: System, to: Side) {
    |s.Get(Other(to)).fates| < |s.Get(Other(to)).channel|
  }

  /** The oldest message on its way to `to`. */
  function Next(s: System, to: Side): Envelope
    requires Waiting(s, to)
  {
    s.Get(Other(to)).channel[|s.Get(Other(to)).fates|]
  }

  function Take(s: System, to: Side, fate: Fate): System {
    var q := s.Get(Other(to));
    s.Set(Other(to), q.(fates := q.fates + [fate]))
  }

  function Greeted(s: System, to: Side, e: Envelope): System {
    FlushSide(Write(WithSession(s, to, e.session, true), to, HandshakeResponse, e.data.callId, e.data.tag), to)
  }

  function Settle(s: System, to: Side, request: Data): System {
    var t := StopListening(s, to, request.callId);
    if request.kind.HandshakeRequest? then FlushSide(t, to) else t
  }

  function Delivered(s: System, to: Side, known: bool): System {
    if !Waiting(s, to) then s else
      var e := Next(s, to);
      var fate := FateOf(s.Get(to).proxy, e, known);
      var t := Take(s, to, fate);
      if e.data.kind.HandshakeRequest? then Greeted(t, to, e)
      else if fate.Settled? then Settle(t, to, fate.request)
      else if fate.Accepted? && e.data.kind.Call? then Owe(t, to, t.Get(to).owes + {e.data})
      else t
  }

  /** The fates of what is on its way from `p` when nobody is left to take it. */
  function Losses(p: Party): seq<Fate> {
    if |p.fates| <= |p.channel| then seq(|p.channel| - |p.fates|, i => Discarded) else []
  }

  /** The document in the frame is replaced: what was on its way to it or queued in it is gone. */
  function Reloaded(s: System): System {
    var f := s.frame;
    s.(main := s.main.(fates := s.main.fates + Losses(s.main)),
       frame := f.(proxy := NEW_PROXY, dropped := f.dropped + f.proxy.pending, nextCall := 0, since := |s.posted|,
                   owes := {}))
  }

  function Answered(s: System, side: Side, request: Data): System {
    if request !in s.Get(side).owes then s else
      Write(Owe(s, side, s.Get(side).owes - {request}), side, Response, request.callId, request.tag)
  }

  /** Another proxy of the main window takes the next call id. */
  function OtherTakesId(s: System): System {
    s.(otherCalls := s.otherCalls + {s.main.nextCall}, main := s.main.(nextCall := s.main.nextCall + 1))
  }

  function Step(s: System, event: Event): System {
    match event
    case PostMessage(side) => Write(s, side, Plain, 0, 0)
    case MakeCall(side) => Ask(s, side, Call)
    case Answer(side, request) => Answered(s, side, request)
    case Timeout(side, callId) => StopListening(s, side, callId)
    case Deliver(side, known) => Delivered(s, side, known)
    case InitiateHandshake =>
      Ask(WithSession(s, Main, Some(s.sessions), true), Main, HandshakeRequest).(sessions := s.sessions + 1)
    case Invalidate => WithSession(s, Main, None, false)
    case Reload => Reloaded(s)
    case OtherHandshake => OtherTakesId(s.(sessions := s.sessions + 1, others := s.others + {s.sessions}))
    case OtherCall => OtherTakesId(s)
  }

  function Run(s: System, events: seq<Event>): System
    decreases |events|
  {
    if events == [] then s else Run(Step(s, events[0]), events[1..])
  }
}
