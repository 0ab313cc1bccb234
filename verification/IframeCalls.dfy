/** Which call a response settles, over whole runs of the iframe proxy protocol. */
module IframeCalls {
  import opened Common
  import opened IframeProxy
  import opened IframeProtocol

  ghost predicate Known(posted: seq<Data>, d: Data) {
    d.tag < |posted| && posted[d.tag] == d
  }

  ghost predicate Asked(posted: seq<Data>, d: Data, side: Side) {
    Known(posted, d) && d.kind.Asks() && d.from == side
  }

  /** A response answers a request of the other side and carries its call id. */
  ghost predicate WellAnswered(posted: seq<Data>, d: Data) {
    d.kind.Answers() ==>
      && d.cause < |posted|
      && Asked(posted, posted[d.cause], Other(d.from))
      && posted[d.cause].callId == d.callId
  }

  ghost predicate PostedWell(posted: seq<Data>) {
    forall i | 0 <= i < |posted| :: posted[i].tag == i && WellAnswered(posted, posted[i])
  }

  /** The requests the present document of `side` has posted have call ids of their own. */
  ghost predicate OwnIds(posted: seq<Data>, side: Side, p: Party) {
    && (forall i | p.since <= i < |posted| && posted[i].kind.Asks() && posted[i].from == side ::
          posted[i].callId < p.nextCall)
    && (forall i, j | p.since <= i < j < |posted| && posted[i].kind.Asks() && posted[i].from == side
                      && posted[j].kind.Asks() && posted[j].from == side :: posted[i].callId != posted[j].callId)
  }

  ghost predicate OpenCalls(posted: seq<Data>, side: Side, p: Party) {
    forall c | c in p.proxy.calls ::
      Asked(posted, p.proxy.calls[c], side) && p.proxy.calls[c].callId == c && p.since <= p.proxy.calls[c].tag
  }

  ghost predicate OwnMessages(posted: seq<Data>, side: Side, p: Party) {
    && (forall d | d in p.proxy.pending :: Known(posted, d) && d.from == side)
    && (forall i | 0 <= i < |p.channel| :: Known(posted, p.channel[i].data) && p.channel[i].data.from == side)
    && (forall d | d in p.owes :: Asked(posted, d, Other(side)))
  }

  predicate IsOpen(p: Party, request: Data) {
    request.callId in p.proxy.calls && p.proxy.calls[request.callId] == request
  }

  /** What `q`'s messages have settled at `p`: calls that `p` made, each settled once and not open any more. */
  ghost predicate SettledOnce(posted: seq<Data>, side: Side, p: Party, q: Party) {
    && |q.fates| <= |q.channel|
    && (forall i | 0 <= i < |q.fates| && q.fates[i].Settled? ::
          Asked(posted, q.fates[i].request, side) && !IsOpen(p, q.fates[i].request))
    && (forall i, j | 0 <= i < j < |q.fates| && q.fates[i].Settled? && q.fates[j].Settled? ::
          q.fates[i].request != q.fates[j].request)
  }

  /** Every settled call of the main window was settled by a response to that very call. */
  ghost predicate SettledByOwn(q: Party) {
    forall i | 0 <= i < |q.fates| && q.fates[i].Settled? ::
      i < |q.channel| && q.channel[i].data.cause == q.fates[i].request.tag
  }

  ghost predicate HoldsFor(posted: seq<Data>, side: Side, p: Party, q: Party) {
    && p.since <= |posted|
    && OwnIds(posted, side, p) && OpenCalls(posted, side, p) && OwnMessages(posted, side, p)
    && SettledOnce(posted, side, p, q)
  }

  ghost predicate CallsHoldAt(s: System, side: Side) {
    HoldsFor(s.posted, side, s.Get(side), s.Get(Other(side)))
  }

  ghost predicate CallsHold(s: System) {
    && PostedWell(s.posted)
    && CallsHoldAt(s, Main) && CallsHoldAt(s, Frame)
    && s.main.since == 0 && SettledByOwn(s.frame)
  }

  lemma OneMorePosted(posted: seq<Data>, d: Data)
    requires PostedWell(posted) && d.tag == |posted| && WellAnswered(posted, d)
    ensures PostedWell(posted + [d]) && Known(posted + [d], d)
    ensures forall x | Known(posted, x) :: Known(posted + [d], x)
  {
  }

  /** What holds of one side still holds after a message that is not a request of that side has been posted. */
  lemma StillHoldsAt(posted: seq<Data>, d: Data, side: Side, p: Party, q: Party)
    requires d.tag == |posted|
    requires OpenCalls(posted, side, p) && OwnMessages(posted, side, p) && SettledOnce(posted, side, p, q)
    ensures
      OpenCalls(posted + [d], side, p) && OwnMessages(posted + [d], side, p) && SettledOnce(posted + [d], side, p, q)
  {
    assert forall x | Known(posted, x) :: Known(posted + [d], x);
  }

  lemma StillOwnIds(posted: seq<Data>, d: Data, side: Side, p: Party)
    requires OwnIds(posted, side, p) && p.since <= |posted|
    requires !(d.kind.Asks() && d.from == side)
    ensures OwnIds(posted + [d], side, p)
  {
    var more := posted + [d];
    assert forall i | 0 <= i < |posted| :: more[i] == posted[i];
  }

  lemma NewOwnId(posted: seq<Data>, d: Data, side: Side, p: Party)
    requires OwnIds(posted, side, p) && p.since <= |posted| && d.callId == p.nextCall
    ensures OwnIds(posted + [d], side, p.(nextCall := p.nextCall + 1))
  {
    var more := posted + [d];
    assert forall i | 0 <= i < |posted| :: more[i] == posted[i];
  }

  /** `p` with the message `d` queued or sent. */
  function Sending(p: Party, d: Data): Party {
    var (x, c) := Post(p.proxy, p.channel, d);
    p.(proxy := x, channel := c)
  }

  lemma SendingKeeps(posted: seq<Data>, d: Data, side: Side, p: Party, q: Party)
    requires OpenCalls(posted, side, p) && OwnMessages(posted, side, p) && OwnIds(posted, side, p)
    requires SettledOnce(posted, side, p, q) && SettledOnce(posted, Other(side), q, p)
    requires Known(posted, d) && d.from == side
    ensures
      var t := Sending(p, d);
      && OpenCalls(posted, side, t) && OwnMessages(posted, side, t) && OwnIds(posted, side, t)
      && SettledOnce(posted, side, t, q) && SettledOnce(posted, Other(side), q, t)
  {
  }

  lemma WriteKeepsCalls(s: System, side: Side, kind: Kind, callId: nat, cause: nat)
    requires CallsHold(s) && !kind.Asks()
    requires kind.Answers() ==>
      cause < |s.posted| && Asked(s.posted, s.posted[cause], Other(side)) && s.posted[cause].callId == callId
    ensures CallsHold(Write(s, side, kind, callId, cause))
  {
    var d := Data(kind, side, callId, |s.posted|, cause);
    OneMorePosted(s.posted, d);
    var posted := s.posted + [d];
    var p, q := s.Get(side), s.Get(Other(side));
    StillOwnIds(s.posted, d, side, p);
    StillOwnIds(s.posted, d, Other(side), q);
    StillHoldsAt(s.posted, d, side, p, q);
    StillHoldsAt(s.posted, d, Other(side), q, p);
    assert SettledByOwn(s.frame);
    SentSettledByOwn(s.frame, d);
    hide OpenCalls, OwnMessages, OwnIds, SettledOnce, PostedWell, SettledByOwn, Known;
    SendingKeeps(posted, d, side, p, q);
    assert Write(s, side, kind, callId, cause) == s.Set(side, Sending(p, d)).(posted := posted);
  }

  lemma SentSettledByOwn(p: Party, d: Data)
    requires SettledByOwn(p)
    ensures SettledByOwn(Sending(p, d))
  {
  }

  function Listening(p: Party, d: Data): Party {
    p.(proxy := p.proxy.(calls := p.proxy.calls[p.nextCall := d]), nextCall := p.nextCall + 1)
  }

  lemma ListeningKeeps(posted: seq<Data>, d: Data, side: Side, p: Party, q: Party)
    requires PostedWell(posted) && p.since <= |posted|
    requires OpenCalls(posted, side, p) && OwnMessages(posted, side, p) && OwnIds(posted, side, p)
    requires SettledOnce(posted, side, p, q) && SettledOnce(posted, Other(side), q, p)
    requires d.kind.Asks() && d.from == side && d.callId == p.nextCall && d.tag == |posted|
    ensures
      var t, more := Listening(p, d), posted + [d];
      && OpenCalls(more, side, t) && OwnMessages(more, side, t) && OwnIds(more, side, t)
      && SettledOnce(more, side, t, q) && SettledOnce(more, Other(side), q, t)
  {
    var t := Listening(p, d);
    StillHoldsAt(posted, d, side, p, q);
    NewOwnId(posted, d, side, p);
    assert OwnIds(posted + [d], side, t);
    assert SettledOnce(posted + [d], Other(side), q, t);
    NewIsNotSettled(posted, d, side, p, q);
  }

  /** The call opened last has not been settled yet. */
  lemma NewIsNotSettled(posted: seq<Data>, d: Data, side: Side, p: Party, q: Party)
    requires SettledOnce(posted, side, p, q) && d.tag == |posted| && d.callId == p.nextCall
    ensures SettledOnce(posted + [d], side, Listening(p, d), q)
  {
    forall i | 0 <= i < |q.fates| && q.fates[i].Settled?
      ensures Asked(posted + [d], q.fates[i].request, side) && !IsOpen(Listening(p, d), q.fates[i].request)
    {
      assert Asked(posted, q.fates[i].request, side) && q.fates[i].request != d;
    }
  }

  lemma AskedSettledByOwn(p: Party, d: Data)
    requires SettledByOwn(p)
    ensures SettledByOwn(Sending(Listening(p, d), d))
  {
    assert SettledByOwn(Listening(p, d));
    SentSettledByOwn(Listening(p, d), d);
  }

  lemma AskKeepsCalls(s: System, side: Side, kind: Kind)
    requires CallsHold(s) && kind.Asks()
    ensures CallsHold(Ask(s, side, kind))
  {
    var p, q := s.Get(side), s.Get(Other(side));
    var d := Data(kind, side, p.nextCall, |s.posted|, 0);
    var posted := s.posted + [d];
    OneMorePosted(s.posted, d);
    StillOwnIds(s.posted, d, Other(side), q);
    StillHoldsAt(s.posted, d, Other(side), q, p);
    AskedSettledByOwn(s.frame, d);
    hide OpenCalls, OwnMessages, OwnIds, SettledOnce, PostedWell, SettledByOwn, Known;
    ListeningKeeps(s.posted, d, side, p, q);
    SendingKeeps(posted, d, side, Listening(p, d), q);
    assert Ask(s, side, kind) == s.Set(side, Sending(Listening(p, d), d)).(posted := posted);
  }

  lemma FlushKeepsCalls(s: System, side: Side)
    requires CallsHold(s)
    ensures CallsHold(FlushSide(s, side))
  {
    hide OwnIds, PostedWell;
    SameIds(s.posted, side, s.Get(side), FlushSide(s, side).Get(side));
  }

  /** Sessions have nothing to do with calls. */
  lemma SessionKeepsCalls(s: System, side: Side, session: Option<nat>, remote: bool)
    requires CallsHold(s)
    ensures CallsHold(WithSession(s, side, session, remote))
  {
    hide PostedWell, Known, Asked;
  }

  lemma StopKeepsCalls(s: System, side: Side, callId: nat)
    requires CallsHold(s)
    ensures CallsHold(StopListening(s, side, callId))
  {
    hide PostedWell, Known, Asked;
  }

  lemma OweKeepsCalls(s: System, side: Side, owes: set<Data>)
    requires CallsHold(s)
    requires forall d | d in owes :: Asked(s.posted, d, Other(side))
    ensures CallsHold(Owe(s, side, owes))
  {
    hide PostedWell, Known, Asked;
  }

  lemma TakeKeepsCalls(s: System, to: Side, fate: Fate)
    requires CallsHold(s) && Waiting(s, to) && !fate.Settled?
    ensures CallsHold(Take(s, to, fate))
  {
    hide PostedWell, Known, Asked, OpenCalls;
    var t := Take(s, to, fate);
    assert OpenCalls(s.posted, Main, t.main) && OpenCalls(s.posted, Frame, t.frame) by {
      SameCalls(s.posted, Main, s.main, t.main);
      SameCalls(s.posted, Frame, s.frame, t.frame);
    }
  }

  lemma SameCalls(posted: seq<Data>, side: Side, p: Party, q: Party)
    requires OpenCalls(posted, side, p) && p.proxy.calls == q.proxy.calls && p.since == q.since
    ensures OpenCalls(posted, side, q)
  {
  }

  /**
   * A response that settles an open call settles the very call it answers, exactly when that call was made by the
   * receiver's present document.
   */
  lemma SettlesItsOwnExactlyWhen(s: System, to: Side, known: bool)
    requires CallsHold(s) && Waiting(s, to)
    requires FateOf(s.Get(to).proxy, Next(s, to), known).Settled?
    ensures
      var request := FateOf(s.Get(to).proxy, Next(s, to), known).request;
      Next(s, to).data.cause == request.tag <==> s.Get(to).since <= Next(s, to).data.cause
  {
    var p, q := s.Get(to), s.Get(Other(to));
    var d := Next(s, to).data;
    assert CallsHoldAt(s, to) && CallsHoldAt(s, Other(to));
    assert d == q.channel[|q.fates|].data && Known(s.posted, d) && d.from == Other(to);
    assert WellAnswered(s.posted, d);
    var request := p.proxy.calls[d.callId];
    assert Asked(s.posted, request, to) && p.since <= request.tag;
    assert s.posted[d.cause].kind.Asks() && s.posted[request.tag].kind.Asks();
  }

  /** `p` after a message of `q` has settled its call `callId`. */
  function Closed(p: Party, callId: nat): Party {
    p.(proxy := p.proxy.(calls := p.proxy.calls - {callId}))
  }

  function Judged(q: Party, fate: Fate): Party {
    q.(fates := q.fates + [fate])
  }

  lemma SettlingKeeps(posted: seq<Data>, side: Side, p: Party, q: Party, callId: nat)
    requires callId in p.proxy.calls && |q.fates| < |q.channel|
    requires OpenCalls(posted, side, p) && SettledOnce(posted, side, p, q)
    ensures
      var t, u := Closed(p, callId), Judged(q, Settled(p.proxy.calls[callId]));
      OpenCalls(posted, side, t) && SettledOnce(posted, side, t, u)
  {
  }

  lemma SettlingKeepsOther(posted: seq<Data>, side: Side, p: Party, q: Party, callId: nat, fate: Fate)
    requires OpenCalls(posted, Other(side), q) && OwnMessages(posted, side, p) && OwnMessages(posted, Other(side), q)
    requires SettledOnce(posted, Other(side), q, p)
    requires OwnIds(posted, side, p) && OwnIds(posted, Other(side), q)
    ensures
      var t, u := Closed(p, callId), Judged(q, fate);
      && OpenCalls(posted, Other(side), u) && OwnMessages(posted, side, t) && OwnMessages(posted, Other(side), u)
      && SettledOnce(posted, Other(side), u, t)
      && OwnIds(posted, side, t) && OwnIds(posted, Other(side), u)
  {
    hide Known, Asked;
  }

  lemma SettledByOwnStill(s: System, to: Side, known: bool)
    requires CallsHold(s) && Waiting(s, to)
    requires FateOf(s.Get(to).proxy, Next(s, to), known).Settled?
    ensures
      var fate := FateOf(s.Get(to).proxy, Next(s, to), known);
      if to.Main? then SettledByOwn(Judged(s.frame, fate)) else SettledByOwn(Closed(s.frame, fate.request.callId))
  {
    SettlesItsOwnExactlyWhen(s, to, known);
    hide PostedWell, OwnIds, OpenCalls, OwnMessages, SettledOnce, FateOf;
  }

  lemma SettledCall(s: System, to: Side, known: bool)
    requires Waiting(s, to) && OpenCalls(s.posted, to, s.Get(to))
    requires FateOf(s.Get(to).proxy, Next(s, to), known).Settled?
    ensures
      var c := Next(s, to).data.callId;
      && c in s.Get(to).proxy.calls && s.Get(to).proxy.calls[c].callId == c
      && FateOf(s.Get(to).proxy, Next(s, to), known) == Settled(s.Get(to).proxy.calls[c])
  {
  }

  lemma SettlingHolds(posted: seq<Data>, side: Side, p: Party, q: Party, callId: nat)
    requires callId in p.proxy.calls && |q.fates| < |q.channel|
    requires HoldsFor(posted, side, p, q) && HoldsFor(posted, Other(side), q, p)
    ensures
      var t, u := Closed(p, callId), Judged(q, Settled(p.proxy.calls[callId]));
      HoldsFor(posted, side, t, u) && HoldsFor(posted, Other(side), u, t)
  {
    hide Known, Asked, OwnIds, OpenCalls, OwnMessages, SettledOnce;
    SettlingKeeps(posted, side, p, q, callId);
    SettlingKeepsOther(posted, side, p, q, callId, Settled(p.proxy.calls[callId]));
  }

  lemma SettlingShape(s: System, to: Side, fate: Fate, callId: nat)
    ensures
      StopListening(Take(s, to, fate), to, callId)
      == s.Set(Other(to), Judged(s.Get(Other(to)), fate)).Set(to, Closed(s.Get(to), callId))
  {
  }

  lemma SettledHolds(s: System, to: Side, callId: nat)
    requires CallsHold(s) && Waiting(s, to) && callId in s.Get(to).proxy.calls
    requires
      var fate := Settled(s.Get(to).proxy.calls[callId]);
      if to.Main? then SettledByOwn(Judged(s.frame, fate)) else SettledByOwn(Closed(s.frame, callId))
    ensures
      var (p, q) := (s.Get(to), s.Get(Other(to)));
      CallsHold(s.Set(Other(to), Judged(q, Settled(p.proxy.calls[callId]))).Set(to, Closed(p, callId)))
  {
    hide PostedWell, HoldsFor, SettledByOwn;
    SettlingHolds(s.posted, to, s.Get(to), s.Get(Other(to)), callId);
  }

  lemma SettleTakes(s: System, to: Side, known: bool)
    requires CallsHold(s) && Waiting(s, to)
    requires FateOf(s.Get(to).proxy, Next(s, to), known).Settled?
    ensures
      var fate := FateOf(s.Get(to).proxy, Next(s, to), known);
      CallsHold(StopListening(Take(s, to, fate), to, fate.request.callId))
  {
    SettledByOwnStill(s, to, known);
    SettledCall(s, to, known);
    hide CallsHold, FateOf, SettledByOwn, Take, StopListening;
    SettledHolds(s, to, Next(s, to).data.callId);
    SettlingShape(s, to, FateOf(s.Get(to).proxy, Next(s, to), known), Next(s, to).data.callId);
  }

  lemma SameIds(posted: seq<Data>, side: Side, p: Party, q: Party)
    requires OwnIds(posted, side, p) && p.nextCall == q.nextCall && p.since == q.since
    ensures OwnIds(posted, side, q)
  {
  }

  lemma GreetedKeepsCalls(s: System, to: Side)
    requires CallsHold(s) && Waiting(s, to) && Next(s, to).data.kind.HandshakeRequest?
    ensures CallsHold(Greeted(Take(s, to, Accepted), to, Next(s, to)))
  {
    var e := Next(s, to);
    var t := Take(s, to, Accepted);
    TakenIsKnown(s, to);
    TakeKeepsCalls(s, to, Accepted);
    hide CallsHold, Take, Write, FlushSide;
    assert t.posted == s.posted by { TakePostsNothing(s, to, Accepted); }
    SessionKeepsCalls(t, to, e.session, true);
    var u := WithSession(t, to, e.session, true);
    WriteKeepsCalls(u, to, HandshakeResponse, e.data.callId, e.data.tag);
    FlushKeepsCalls(Write(u, to, HandshakeResponse, e.data.callId, e.data.tag), to);
  }

  lemma TakePostsNothing(s: System, to: Side, fate: Fate)
    ensures Take(s, to, fate).posted == s.posted && Take(s, to, fate).Get(to) == s.Get(to)
  {
  }

  lemma TakenIsKnown(s: System, to: Side)
    requires CallsHold(s) && Waiting(s, to)
    ensures Known(s.posted, Next(s, to).data) && Next(s, to).data.from == Other(to)
  {
    assert OwnMessages(s.posted, Other(to), s.Get(Other(to)));
  }

  lemma SettleKeepsCalls(s: System, to: Side, known: bool)
    requires CallsHold(s) && Waiting(s, to)
    requires FateOf(s.Get(to).proxy, Next(s, to), known).Settled?
    ensures
      var fate := FateOf(s.Get(to).proxy, Next(s, to), known);
      CallsHold(Settle(Take(s, to, fate), to, fate.request))
  {
    SettleTakes(s, to, known);
    hide CallsHold, Take, StopListening, FlushSide;
    var fate := FateOf(s.Get(to).proxy, Next(s, to), known);
    FlushKeepsCalls(StopListening(Take(s, to, fate), to, fate.request.callId), to);
  }

  lemma AcceptedKeepsCalls(s: System, to: Side)
    requires CallsHold(s) && Waiting(s, to) && Next(s, to).data.kind.Call?
    ensures
      var t := Take(s, to, Accepted);
      CallsHold(Owe(t, to, t.Get(to).owes + {Next(s, to).data}))
  {
    TakenIsKnown(s, to);
    TakeKeepsCalls(s, to, Accepted);
    TakePostsNothing(s, to, Accepted);
    assert OwnMessages(s.posted, to, s.Get(to));
    hide CallsHold, Take;
    OweKeepsCalls(Take(s, to, Accepted), to, s.Get(to).owes + {Next(s, to).data});
  }

  lemma DeliveredKeepsCalls(s: System, to: Side, known: bool)
    requires CallsHold(s)
    ensures CallsHold(Delivered(s, to, known))
  {
    hide CallsHold, Greeted, Settle, Owe, Take;
    if Waiting(s, to) {
      var e := Next(s, to);
      var fate := FateOf(s.Get(to).proxy, e, known);
      if e.data.kind.HandshakeRequest? {
        GreetedKeepsCalls(s, to);
      } else if fate.Settled? {
        SettleKeepsCalls(s, to, known);
      } else if fate.Accepted? && e.data.kind.Call? {
        AcceptedKeepsCalls(s, to);
      } else {
        TakeKeepsCalls(s, to, fate);
      }
    }
  }

  lemma AnsweredKeepsCalls(s: System, side: Side, request: Data)
    requires CallsHold(s)
    ensures CallsHold(Answered(s, side, request))
  {
    if request in s.Get(side).owes {
      assert OwnMessages(s.posted, side, s.Get(side));
      OweKeepsCalls(s, side, s.Get(side).owes - {request});
      hide CallsHold, Write;
      WriteKeepsCalls(Owe(s, side, s.Get(side).owes - {request}), side, Response, request.callId, request.tag);
    }
  }

  lemma ReloadKeepsCalls(s: System)
    requires CallsHold(s)
    ensures CallsHold(Reloaded(s))
  {
    hide PostedWell, Known, Asked;
  }

  lemma HandshakeKeepsCalls(s: System)
    requires CallsHold(s)
    ensures CallsHold(Step(s, InitiateHandshake))
  {
    var t := WithSession(s, Main, Some(s.sessions), true);
    SessionKeepsCalls(s, Main, Some(s.sessions), true);
    AskKeepsCalls(t, Main, HandshakeRequest);
    hide Ask;
    CountersKeepCalls(Ask(t, Main, HandshakeRequest), Step(s, InitiateHandshake));
  }

  /** The sessions given out, and call ids taken by other proxies, do not matter. */
  lemma CountersKeepCalls(s: System, t: System)
    requires CallsHold(s) && t.posted == s.posted && t.frame == s.frame
    requires t.main == s.main || t.main == s.main.(nextCall := s.main.nextCall + 1)
    ensures CallsHold(t)
  {
    hide PostedWell, Known, Asked;
  }

  lemma StepKeepsCalls(s: System, event: Event)
    requires CallsHold(s)
    ensures CallsHold(Step(s, event))
  {
    hide CallsHold;
    match event
    case PostMessage(side) => WriteKeepsCalls(s, side, Plain, 0, 0);
    case MakeCall(side) => AskKeepsCalls(s, side, Call);
    case Answer(side, request) => AnsweredKeepsCalls(s, side, request);
    case Timeout(side, callId) => StopKeepsCalls(s, side, callId);
    case Deliver(side, known) => DeliveredKeepsCalls(s, side, known);
    case InitiateHandshake => HandshakeKeepsCalls(s);
    case Invalidate => SessionKeepsCalls(s, Main, None, false);
    case Reload => ReloadKeepsCalls(s);
    case OtherHandshake => CountersKeepCalls(s, Step(s, event));
    case OtherCall => CountersKeepCalls(s, Step(s, event));
  }

  lemma {:induction false} RunKeepsCalls(s: System, events: seq<Event>)
    requires CallsHold(s)
    ensures CallsHold(Run(s, events))
    decreases |events|
  {
    hide CallsHold, Step;
    if events != [] {
      StepKeepsCalls(s, events[0]);
      RunKeepsCalls(Step(s, events[0]), events[1..]);
    }
  }

  lemma RunsHoldCalls(events: seq<Event>)
    ensures CallsHold(Run(START, events))
  {
    assert CallsHold(START);
    RunKeepsCalls(START, events);
  }

  /**
   * After any run: no call of either side has been settled twice, and each call of the main window that was settled
   * was settled by a response to that very call.
   */
  lemma CallsSettleOnceByTheirOwnResponse(events: seq<Event>)
    ensures
      var s := Run(START, events);
      && SettledOnce(s.posted, Main, s.main, s.frame)
      && SettledOnce(s.posted, Frame, s.frame, s.main)
      && SettledByOwn(s.frame)
  {
    RunsHoldCalls(events);
  }

  predicate MainRequest(d: Data) {
    d.kind.Asks() && d.from.Main?
  }

  /** The ids other proxies took are behind the counter and on no request of this one. */
  ghost predicate Apart(s: System) {
    && (forall c | c in s.otherCalls :: c < s.main.nextCall)
    && (forall i | 0 <= i < |s.posted| && MainRequest(s.posted[i]) :: s.posted[i].callId !in s.otherCalls)
  }

  /** From `s` to `t` no request of the main window was posted and no id taken. */
  ghost predicate NoMainRequest(s: System, t: System) {
    && s.posted <= t.posted && t.otherCalls == s.otherCalls && t.main.nextCall == s.main.nextCall
    && forall i | |s.posted| <= i < |t.posted| :: !MainRequest(t.posted[i])
  }

  lemma NoMainRequestKeepsApart(s: System, t: System)
    requires Apart(s) && NoMainRequest(s, t)
    ensures Apart(t)
  {
    assert forall i | 0 <= i < |s.posted| :: t.posted[i] == s.posted[i];
  }

  lemma DeliveredPostsNoMainRequest(s: System, to: Side, known: bool)
    ensures NoMainRequest(s, Delivered(s, to, known))
  {
    hide FateOf;
  }

  lemma AskKeepsApart(s: System, side: Side, kind: Kind)
    requires Apart(s)
    ensures Apart(Ask(s, side, kind))
  {
  }

  lemma OtherKeepsApart(s: System)
    requires Apart(s) && CallsHold(s)
    ensures Apart(OtherTakesId(s))
  {
    assert OwnIds(s.posted, Main, s.main);
  }

  lemma StepKeepsApart(s: System, event: Event)
    requires Apart(s) && CallsHold(s)
    ensures Apart(Step(s, event))
  {
    match event
    case MakeCall(side) => AskKeepsApart(s, side, Call);
    case Deliver(side, known) =>
      DeliveredPostsNoMainRequest(s, side, known);
      NoMainRequestKeepsApart(s, Step(s, event));
    case InitiateHandshake => AskKeepsApart(WithSession(s, Main, Some(s.sessions), true), Main, HandshakeRequest);
    case OtherHandshake =>
      CountersKeepCalls(s, s.(sessions := s.sessions + 1, others := s.others + {s.sessions}));
      OtherKeepsApart(s.(sessions := s.sessions + 1, others := s.others + {s.sessions}));
    case OtherCall => OtherKeepsApart(s);
    case _ =>
      assert NoMainRequest(s, Step(s, event));
      NoMainRequestKeepsApart(s, Step(s, event));
  }

  lemma {:induction false} RunKeepsApart(s: System, events: seq<Event>)
    requires Apart(s) && CallsHold(s)
    ensures Apart(Run(s, events))
    decreases |events|
  {
    hide CallsHold, Apart, Step;
    if events != [] {
      StepKeepsApart(s, events[0]);
      StepKeepsCalls(s, events[0]);
      RunKeepsApart(Step(s, events[0]), events[1..]);
    }
  }

  /** No two requests of the main window ever carry the same call id, nor one that another of its proxies took. */
  lemma CallIdsAreNeverReused(events: seq<Event>, i: nat)
    requires i < |Run(START, events).posted| && MainRequest(Run(START, events).posted[i])
    ensures
      var s := Run(START, events);
      && s.posted[i].callId !in s.otherCalls
      && forall j | 0 <= j < |s.posted| && j != i && MainRequest(s.posted[j]) ::
           s.posted[j].callId != s.posted[i].callId
  {
    assert CallsHold(START) && Apart(START);
    RunsHoldCalls(events);
    RunKeepsApart(START, events);
    assert OwnIds(Run(START, events).posted, Main, Run(START, events).main);
  }

  /** `SettlesItsOwnExactlyWhen` at the end of any run. */
  lemma ResponsesSettleTheirOwnCallExactlyWhen(events: seq<Event>, to: Side, known: bool)
    requires Waiting(Run(START, events), to)
    requires
      var s := Run(START, events);
      FateOf(s.Get(to).proxy, Next(s, to), known).Settled?
    ensures
      var s := Run(START, events);
      var request := FateOf(s.Get(to).proxy, Next(s, to), known).request;
      Next(s, to).data.cause == request.tag <==> s.Get(to).since <= Next(s, to).data.cause
  {
    RunsHoldCalls(events);
    SettlesItsOwnExactlyWhen(Run(START, events), to, known);
  }

  lemma {:induction false} RunOneMore(s: System, events: seq<Event>, event: Event)
    ensures Run(s, events + [event]) == Step(Run(s, events), event)
    decreases |events|
  {
    if events == [] {
      assert Run(Step(s, event), []) == Step(s, event);
    } else {
      assert (events + [event])[1..] == events[1..] + [event];
      RunOneMore(Step(s, events[0]), events[1..], event);
    }
  }

  /** What a run leads to: `s` after `events`. */
  ghost predicate Leads(events: seq<Event>, s: System) {
    Run(START, events) == s
  }

  lemma LeadsOn(events: seq<Event>, s: System, event: Event) returns (more: seq<Event>)
    requires Leads(events, s)
    ensures Leads(more, Step(s, event)) && more == events + [event]
  {
    RunOneMore(START, events, event);
    more := events + [event];
  }

  function AfterHandshake(): System {
    var greeting := Data(HandshakeRequest, Main, 0, 0, 0);
    var response := Data(HandshakeResponse, Frame, 0, 1, 0);
    System(Party(Proxy(Some(0), true, [], map[]), [Envelope(Some(0), greeting)], [Accepted], [], 1, 0, {}),
           Party(Proxy(Some(0), true, [], map[]), [Envelope(Some(0), response)], [Settled(greeting)], [], 0, 0, {}),
           1, {}, {}, [greeting, response])
  }

  lemma FirstHandshake() returns (events: seq<Event>)
    ensures Leads(events, AfterHandshake())
  {
    assert Leads([], START);
    events := LeadsOn([], START, InitiateHandshake);
    var greeting := Data(HandshakeRequest, Main, 0, 0, 0);
    var response := Data(HandshakeResponse, Frame, 0, 1, 0);
    var a := Step(START, InitiateHandshake);
    assert a.main == Party(Proxy(Some(0), true, [], map[0 := greeting]),
                           [Envelope(Some(0), greeting)], [], [], 1, 0, {});
    events := LeadsOn(events, a, Deliver(Frame, true));
    var b := Step(a, Deliver(Frame, true));
    assert b.frame == Party(Proxy(Some(0), true, [], map[]), [Envelope(Some(0), response)], [], [], 0, 0, {});
    assert b.main == a.main.(fates := [Accepted]) && b.posted == [greeting, response];
    events := LeadsOn(events, b, Deliver(Main, true));
    assert map[0 := greeting] - {0} == map[];
    assert Step(b, Deliver(Main, true)) == AfterHandshake();
  }

  /** The frame's call has reached the main window, and then the document in the frame was replaced. */
  function AfterReload(): System {
    var s := AfterHandshake();
    var request := Data(Call, Frame, 0, 2, 0);
    System(s.main.(owes := {request}),
           Party(NEW_PROXY, s.frame.channel + [Envelope(Some(0), request)], s.frame.fates + [Accepted], [], 0, 3, {}),
           1, {}, {}, s.posted + [request])
  }

  lemma CallThenReload() returns (events: seq<Event>)
    ensures Leads(events, AfterReload())
  {
    events := FirstHandshake();
    var s := AfterHandshake();
    var request := Data(Call, Frame, 0, 2, 0);
    events := LeadsOn(events, s, MakeCall(Frame));
    var a := Step(s, MakeCall(Frame));
    assert a.frame == Party(Proxy(Some(0), true, [], map[0 := request]), s.frame.channel + [Envelope(Some(0), request)],
                            s.frame.fates, [], 1, 0, {});
    events := LeadsOn(events, a, Deliver(Main, true));
    var b := Step(a, Deliver(Main, true));
    assert b.main == s.main.(owes := {request}) && b.frame == a.frame.(fates := s.frame.fates + [Accepted]);
    events := LeadsOn(events, b, Reload);
    assert Step(b, Reload) == AfterReload();
  }

  /** The new document has a session and has made a call, which has call id 0 again. */
  lemma NewDocumentCalls() returns (events: seq<Event>, s: System)
    ensures Leads(events, s)
    ensures s.main.proxy.session == Some(1) && s.main.proxy.remote
    ensures s.main.owes == {Data(Call, Frame, 0, 2, 0)} && |s.posted| == 6
    ensures |s.main.fates| == |s.main.channel|
    ensures s.frame.proxy.session == Some(1) && s.frame.since == 3
    ensures s.frame.proxy.calls == map[0 := Data(Call, Frame, 0, 5, 0)]
  {
    events := CallThenReload();
    s := AfterReload();
    events := LeadsOn(events, s, InitiateHandshake);
    var greeting := Data(HandshakeRequest, Main, 1, 3, 0);
    var a := Step(s, InitiateHandshake);
    assert a.main == s.main.(proxy := Proxy(Some(1), true, [], map[1 := greeting]), nextCall := 2,
                             channel := s.main.channel + [Envelope(Some(1), greeting)]);
    events := LeadsOn(events, a, Deliver(Frame, true));
    var b := Step(a, Deliver(Frame, true));
    assert b.frame.proxy == Proxy(Some(1), true, [], map[]) && b.frame.nextCall == 0 && b.frame.since == 3;
    assert b.main == a.main.(fates := s.main.fates + [Accepted]) && |b.posted| == 5;
    events := LeadsOn(events, b, MakeCall(Frame));
    s := Step(b, MakeCall(Frame));
  }

  /**
   * The condition of `ResponsesSettleTheirOwnCallExactlyWhen` can fail: a call made by the frame before it was
   * reloaded, answered after it, settles the new document's own first call.
   */
  lemma AStaleAnswerCanSettleAnotherCall() returns (events: seq<Event>)
    ensures Waiting(Run(START, events), Frame)
    ensures
      var s := Run(START, events);
      var fate := FateOf(s.frame.proxy, Next(s, Frame), true);
      fate.Settled? && fate.request.tag == 5 && Next(s, Frame).data.cause == 2
  {
    var s;
    events, s := NewDocumentCalls();
    var request := Data(Call, Frame, 0, 2, 0);
    events := LeadsOn(events, s, Answer(Main, request));
    var t := Step(s, Answer(Main, request));
    assert t.main.channel == s.main.channel + [Envelope(Some(1), Data(Response, Main, 0, 6, 2))];
  }
}
