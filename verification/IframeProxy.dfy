/** One end of the iframe proxy: session, remote window, open calls and the queue of messages waiting for a session. */
module IframeProxy {
  import opened Common

  /** The two windows; both run the same proxy class. */
  datatype Side = Main | Frame

  /** A handshake response and any other response have the same type on the wire. */
  datatype Kind = HandshakeRequest | HandshakeResponse | Call | Response | Plain
  {
    predicate Answers() { this.HandshakeResponse? || this.Response? }
    predicate Asks() { this.HandshakeRequest? || this.Call? }
  }

  /**
   * A message handed to `postMessage`. Sender, `tag` (which numbers the messages) and `cause` (for a response,
   * the tag of the request it answers) are not on the wire: no operation below looks at them.
   */
  datatype Data = Data(kind: Kind, from: Side, callId: nat, tag: nat, cause: nat)

  /** A message on its way, stamped with the session of its sender. */
  datatype Envelope = Envelope(session: Option<nat>, data: Data)

  /** `remote`: the remote window is known. `calls`: the listeners of the open calls, by call id. */
  datatype Proxy = Proxy(session: Option<nat>, remote: bool, pending: seq<Data>, calls: map<nat, Data>)

  /** What becomes of a message that is delivered. */
  datatype Fate = Accepted | Settled(request: Data) | Discarded

  const NEW_PROXY := Proxy(None, false, [], map[])

  function Stamp(session: Option<nat>, ds: seq<Data>): (es: seq<Envelope>)
    ensures |es| == |ds|
    ensures forall i | 0 <= i < |ds| :: es[i] == Envelope(session, ds[i])
  {
    seq(|ds|, i requires 0 <= i < |ds| => Envelope(session, ds[i]))
  }

  /** `postMessage`: straight to the channel, or to the queue while there is no remote window. */
  function Post(p: Proxy, channel: seq<Envelope>, d: Data): (Proxy, seq<Envelope>) {
    if p.remote then (p, channel + [Envelope(p.session, d)])
    else (p.(pending := p.pending + [d]), channel)
  }

  /** The flush loops: everything that waited reaches the channel, in the order it was queued. */
  function Flush(p: Proxy, channel: seq<Envelope>): (Proxy, seq<Envelope>)
    requires p.remote
  {
    (p.(pending := []), channel + Stamp(p.session, p.pending))
  }

  /** What both message listeners make of `e`; `known` says whether its observer is registered. */
  function FateOf(p: Proxy, e: Envelope, known: bool): Fate {
    if e.data.kind.HandshakeRequest? then Accepted
    else if e.data.kind.Answers() then
      if e.data.callId in p.calls && e.session == p.session then Settled(p.calls[e.data.callId]) else Discarded
    else if p.session == e.session && p.remote && known then Accepted
    else Discarded
  }

  /** A proxy and its channel once it has sent the handshake `request` under session `session`. */
  function AfterHandshake(p: Proxy, channel: seq<Envelope>, session: nat, request: Data): (Proxy, seq<Envelope>) {
    (Proxy(Some(session), true, p.pending, p.calls[request.callId := request]),
     channel + [Envelope(Some(session), request)])
  }

  /** A proxy and its channel once it has listened for the answer to `request` and posted it. */
  function AfterCall(p: Proxy, channel: seq<Envelope>, request: Data): (Proxy, seq<Envelope>) {
    Post(p.(calls := p.calls[request.callId := request]), channel, request)
  }

  /** A proxy and its channel once the handshake request `e` has arrived and been answered with `response`. */
  function AfterRequest(p: Proxy, channel: seq<Envelope>, e: Envelope, response: Data): (Proxy, seq<Envelope>) {
    var (q, c) := Post(p.(session := e.session, remote := true), channel, response);
    Flush(q, c)
  }

  /** A proxy and its channel once the answer `e` has arrived. */
  function AfterResponse(p: Proxy, channel: seq<Envelope>, e: Envelope): (Proxy, seq<Envelope>)
    requires (p.session.Some? ==> p.remote) && e.session.Some? && e.data.kind.Answers()
  {
    var fate := FateOf(p, e, false);
    if fate.Discarded? then (p, channel)
    else
      var q := p.(calls := p.calls - {e.data.callId});
      if fate.request.kind.HandshakeRequest? then Flush(q, channel) else (q, channel)
  }

  /** The counters of a window, shared by its proxies. */
  class Window {
    var asyncIDs: nat
    var sessionIDs: nat

    constructor ()
      ensures asyncIDs == 0 && sessionIDs == 0
    {
      asyncIDs, sessionIDs := 0, 0;
    }
  }

  class IFrameObjectProxy {
    const window: Window
    var sessionId: Option<nat>
    var remoteWindow: bool
    var pending: seq<Data>
    var calls: map<nat, Data>
    /** What has been posted to the remote window. */
    var channel: seq<Envelope>

    function State(): Proxy
      reads this
    {
      Proxy(sessionId, remoteWindow, pending, calls)
    }

    constructor (window: Window)
      ensures this.window == window && State() == NEW_PROXY && channel == []
    {
      this.window := window;
      sessionId, remoteWindow, pending, calls, channel := None, false, [], map[], [];
    }

    method PostMessage(d: Data)
      modifies this
      ensures (State(), channel) == Post(old(State()), old(channel), d)
    {
      if remoteWindow {
        channel := channel + [Envelope(sessionId, d)];
      } else {
        pending := pending + [d];
      }
    }

    /** Terminates because the remote window is known: nothing is queued again. */
    method FlushPending()
      requires remoteWindow
      modifies this
      ensures (State(), channel) == Flush(old(State()), old(channel))
    {
      while pending != []
        invariant remoteWindow && sessionId == old(sessionId) && calls == old(calls)
        invariant |pending| <= |old(pending)| && pending == old(pending)[|old(pending)| - |pending|..]
        invariant channel == old(channel) + Stamp(sessionId, old(pending)[..|old(pending)| - |pending|])
        decreases |pending|
      {
        var d := pending[0];
        ghost var done := |old(pending)| - |pending|;
        assert old(pending)[..done + 1] == old(pending)[..done] + [d];
        assert Stamp(sessionId, old(pending)[..done + 1]) ==
               Stamp(sessionId, old(pending)[..done]) + [Envelope(sessionId, d)];
        pending := pending[1..];
        PostMessage(d);
      }
      assert old(pending)[..|old(pending)|] == old(pending);
    }

    /** Posts a request under a call id of its own and listens for the response. */
    method MakeAsyncCall(d: Data) returns (callId: nat)
      modifies this, window`asyncIDs
      ensures callId == old(window.asyncIDs) && window.asyncIDs == callId + 1
      ensures
        (State(), channel) == AfterCall(old(State()), old(channel), d.(callId := callId))
    {
      callId := window.asyncIDs;
      window.asyncIDs := callId + 1;
      var request := d.(callId := callId);
      calls := calls[callId := request];
      PostMessage(request);
    }

    method InitiateHandshake(d: Data) returns (callId: nat)
      modifies this, window
      ensures callId == old(window.asyncIDs) && window.asyncIDs == callId + 1
      ensures window.sessionIDs == old(window.sessionIDs) + 1
      ensures
        var request := d.(kind := HandshakeRequest, callId := callId);
        (State(), channel) == AfterHandshake(old(State()), old(channel), old(window.sessionIDs), request)
    {
      sessionId := Some(window.sessionIDs);
      window.sessionIDs := window.sessionIDs + 1;
      remoteWindow := true;
      callId := MakeAsyncCall(d.(kind := HandshakeRequest));
    }

    method Invalidate()
      modifies this
      ensures State() == old(State()).(session := None, remote := false) && channel == old(channel)
    {
      remoteWindow := false;
      sessionId := None;
    }

    /** Gives up on a call: its listener is removed. */
    method Timeout(callId: nat)
      modifies this
      ensures State() == old(State()).(calls := old(calls) - {callId}) && channel == old(channel)
    {
      calls := calls - {callId};
    }

    /** A handshake request arrives: adopt its session, respond (with `response`), send what waited. */
    method Greet(e: Envelope, response: Data)
      modifies this
      ensures
        (State(), channel) == AfterRequest(old(State()), old(channel), e, response)
    {
      remoteWindow := true;
      sessionId := e.session;
      PostMessage(response);
      FlushPending();
    }

    /** A response arrives; the handshake's own continuation sends what waited. */
    method OnResponse(e: Envelope) returns (fate: Fate)
      requires e.data.kind.Answers()
      requires sessionId.Some? ==> remoteWindow
      requires e.session.Some?
      modifies this
      ensures fate == FateOf(old(State()), e, false)
      ensures (State(), channel) == AfterResponse(old(State()), old(channel), e)
    {
      if e.data.callId in calls && e.session == sessionId {
        fate := Settled(calls[e.data.callId]);
        calls := calls - {e.data.callId};
        if fate.request.kind.HandshakeRequest? {
          FlushPending();
        }
      } else {
        fate := Discarded;
      }
    }
  }
}
