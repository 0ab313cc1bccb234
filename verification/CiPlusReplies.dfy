/** Which reply of a CI+ module is reported as the result of which message. */
module CiPlusReplies {
  import opened Common
  import opened CiPlusWire

  const MSG_UNKNOWN_ERROR := 1
  const MSG_UNKNOWN_MIME_TYPE := 3
  const MSG_UNKNOWN_DRM_SYSTEM := 5
  const MSG_WRONG_FORMAT := 6

  /** What `sendDRMMessage` is asked to send, and to whom. */
  datatype Mime = HexBinary | OtherMime | UnknownMime
  datatype Target = CiPlus | OtherSystem | UnknownSystem

  /**
   * A call of the agent's result callback; message ids are the decimal numerals of these numbers, and a code of `None`
   * is not-a-number.
   */
  datatype Result = Result(msgId: nat, text: Option<string>, code: Option<int>)

  /**
   * `msgs` counts the message ids, `serial` the serialized messages. `table` is the table of open messages, by key,
   * and `results` what has been reported. `serials` (by key) and `sent` (message id by serial number) are history.
   */
  datatype State = State(
    msgs: nat, serial: nat, table: map<string, nat>, serials: map<string, nat>,
    sent: map<nat, nat>, results: seq<Result>)

  const START := State(0, 0, map[], map[], map[], [])

  /** The key of the `n`-th serialized message. */
  function KeyOf(n: nat): string {
    Key(ToInt32(n))
  }

  lemma CounterAdvances(n: nat)
    ensures ToInt32(ToInt32(n) + 1) == ToInt32(n + 1)
  {
  }

  predicate Congruent(i: nat, j: nat) {
    (i - j) % 0x1_0000_0000 == 0
  }

  /** Two messages have the same key exactly when a multiple of 2^32 lies between them. */
  lemma KeysCollideExactlyWhen(i: nat, j: nat)
    ensures KeyOf(i) == KeyOf(j) <==> Congruent(i, j)
  {
    KeysDiffer(ToInt32(i), ToInt32(j));
    SameInt32ExactlyWhen(i, j);
  }

  lemma SameInt32ExactlyWhen(i: nat, j: nat)
    ensures ToInt32(i) == ToInt32(j) <==> Congruent(i, j)
  {
    var m := 0x1_0000_0000;
    var (a, b) := (i + 0x8000_0000, j + 0x8000_0000);
    assert a == m * (a / m) + a % m && b == m * (b / m) + b % m;
    var d := a / m - b / m;
    assert a - b == m * d + (a % m - b % m);
  }

  // Operations

  /** Message `id` goes out under the next transaction id. */
  function Filed(s: State, id: nat): State {
    var n := s.serial + 1;
    s.(msgs := id, serial := n, table := s.table[KeyOf(n) := id], serials := s.serials[KeyOf(n) := n],
       sent := s.sent[n := id])
  }

  /** The message id is used up and nothing is sent, perhaps with a report at once. */
  function NotSent(s: State, id: nat, code: Option<int>): State {
    var t := s.(msgs := id);
    if code.None? then t else t.(results := s.results + [Result(id, None, code)])
  }

  /** `fails`: the data cannot be encoded, and an exception ends the call with both counters advanced. */
  function Send(s: State, mime: Mime, target: Target, fails: bool): State {
    var id := s.msgs + 1;
    if mime.UnknownMime? then NotSent(s, id, Some(MSG_UNKNOWN_MIME_TYPE))
    else if target.UnknownSystem? then NotSent(s, id, Some(MSG_UNKNOWN_DRM_SYSTEM))
    else if target.OtherSystem? then NotSent(s, id, None)
    else if mime.OtherMime? then NotSent(s, id, Some(MSG_UNKNOWN_MIME_TYPE))
    else if fails then NotSent(s, id, None).(serial := s.serial + 1)
    else Filed(s, id)
  }

  /** `oipf_status` as the agent reports it. */
  function FixedStatus(status: Code): Option<int> {
    if status.None? then None
    else if status.value > 5 then Some(MSG_UNKNOWN_ERROR)
    else if status.value == 3 then Some(MSG_WRONG_FORMAT)
    else Some(status.value)
  }

  predicate HasStatus(types: map<byte, seq<Datum>>) {
    8 in types && types[8] != [] && types[8][0].Small?
  }

  predicate HasText(types: map<byte, seq<Datum>>) {
    1 in types && types[1] != [] && types[1][0].Hex?
  }

  function Close(s: State, key: string): State {
    s.(table := s.table - {key}, serials := s.serials - {key})
  }

  /**
   * A reply under `key`. When its data types cannot be read, or it has a status and no text, an exception leaves
   * the message in the table.
   */
  function Reply(s: State, key: string, agent: bool, x: Extraction): State {
    if key !in s.table then s
    else if !agent then Close(s, key)
    else if !x.Types? then s
    else if !HasStatus(x.types) then Close(s, key)
    else if !HasText(x.types) then s
    else
      var r := Result(s.table[key], Some(x.types[1][0].text), FixedStatus(x.types[8][0].value));
      Close(s, key).(results := s.results + [r])
  }

  /**
   * `Probe`: `canPlayContent` or `canRecordContent` serializes a message; `Connect`: `tryNextAppId` takes a message
   * id.
   */
  datatype Event =
    | SendMessage(mime: Mime, target: Target, fails: bool)
    | Probe
    | Connect
    | ReplyMessage(key: string, agent: bool, x: Extraction)

  function Step(s: State, event: Event): State {
    match event
    case SendMessage(mime, target, fails) => Send(s, mime, target, fails)
    case Probe => s.(serial := s.serial + 1)
    case Connect => s.(msgs := s.msgs + 1)
    case ReplyMessage(key, agent, x) => Reply(s, key, agent, x)
  }

  function Run(s: State, events: seq<Event>): State
    decreases |events|
  {
    if events == [] then s else Run(Step(s, events[0]), events[1..])
  }

  // The invariant

  /** An open message stands under the key of the last message sent with that key. */
  ghost predicate Open(s: State) {
    && s.table.Keys == s.serials.Keys
    && (forall k | k in s.table ::
          && s.serials[k] in s.sent && s.sent[s.serials[k]] == s.table[k]
          && KeyOf(s.serials[k]) == k
          && forall n | n in s.sent && KeyOf(n) == k :: n <= s.serials[k])
    && forall n | n in s.sent :: 1 <= n <= s.serial && s.sent[n] <= s.msgs
  }

  /** Every message id stands for one message, open or reported, and is reported at most once. */
  ghost predicate Once(s: State) {
    && (forall m, n | m in s.sent && n in s.sent && m != n :: s.sent[m] != s.sent[n])
    && (forall i | 0 <= i < |s.results| :: s.results[i].msgId <= s.msgs)
    && (forall i, j | 0 <= i < j < |s.results| :: s.results[i].msgId != s.results[j].msgId)
    && (forall i, k | 0 <= i < |s.results| && k in s.table :: s.results[i].msgId != s.table[k])
  }

  ghost predicate Inv(s: State) {
    Open(s) && Once(s)
  }

  lemma FiledKeepsOpen(s: State)
    requires Open(s)
    ensures Open(Filed(s, s.msgs + 1))
  {
    hide KeyOf;
  }

  lemma FiledKeepsOnce(s: State)
    requires Open(s) && Once(s)
    ensures Once(Filed(s, s.msgs + 1))
  {
    hide KeyOf;
  }

  lemma NotSentKeeps(s: State, code: Option<int>)
    requires Inv(s)
    ensures Inv(NotSent(s, s.msgs + 1, code))
  {
    hide KeyOf;
  }

  lemma FiledKeeps(s: State)
    requires Inv(s)
    ensures Inv(Filed(s, s.msgs + 1))
  {
    hide Open, Once, Filed;
    FiledKeepsOpen(s);
    FiledKeepsOnce(s);
  }

  lemma NotSentCounts(s: State)
    ensures NotSent(s, s.msgs + 1, None).serial == s.serial
  {
  }

  /** A transaction id that is used up and never filed. */
  lemma SkippedKeeps(s: State)
    requires Inv(s)
    ensures Inv(s.(serial := s.serial + 1))
  {
    hide KeyOf;
  }

  lemma SendKeeps(s: State, mime: Mime, target: Target, fails: bool)
    requires Inv(s)
    ensures Inv(Send(s, mime, target, fails))
  {
    hide Inv, Filed, NotSent;
    FiledKeeps(s);
    NotSentKeeps(s, None);
    SkippedKeeps(NotSent(s, s.msgs + 1, None));
    NotSentCounts(s);
    NotSentKeeps(s, Some(MSG_UNKNOWN_MIME_TYPE));
    NotSentKeeps(s, Some(MSG_UNKNOWN_DRM_SYSTEM));
  }

  lemma DistinctOpen(s: State, k: string, l: string)
    requires Inv(s) && k in s.table && l in s.table && k != l
    ensures s.table[k] != s.table[l]
  {
    assert s.serials[k] != s.serials[l];
  }

  /** Closing a message frees its message id for the one report of it. */
  lemma CloseKeeps(s: State, key: string)
    requires Inv(s) && key in s.table
    ensures Inv(Close(s, key))
    ensures forall k | k in Close(s, key).table :: Close(s, key).table[k] != s.table[key]
    ensures forall i | 0 <= i < |s.results| :: s.results[i].msgId != s.table[key]
    ensures s.table[key] <= s.msgs
  {
    hide KeyOf;
    forall k | k in s.table && k != key ensures s.table[k] != s.table[key] {
      DistinctOpen(s, k, key);
    }
  }

  lemma ReportKeeps(s: State, r: Result)
    requires Inv(s) && r.msgId <= s.msgs
    requires forall k | k in s.table :: s.table[k] != r.msgId
    requires forall i | 0 <= i < |s.results| :: s.results[i].msgId != r.msgId
    ensures Inv(s.(results := s.results + [r]))
  {
    hide KeyOf;
  }

  lemma ReplyKeeps(s: State, key: string, agent: bool, x: Extraction)
    requires Inv(s)
    ensures Inv(Reply(s, key, agent, x))
  {
    hide Inv, HasStatus, HasText;
    if key in s.table {
      CloseKeeps(s, key);
      if agent && x.Types? && HasStatus(x.types) && HasText(x.types) {
        var t := Reply(s, key, agent, x);
        ReportKeeps(Close(s, key), t.results[|s.results|]);
      }
    }
  }

  lemma {:induction false} RunKeeps(s: State, events: seq<Event>)
    requires Inv(s)
    ensures Inv(Run(s, events))
    decreases |events|
  {
    hide Send, Reply;
    if events == [] {
    } else {
      match events[0] {
        case SendMessage(mime, target, fails) => SendKeeps(s, mime, target, fails);
        case ReplyMessage(key, agent, x) => ReplyKeeps(s, key, agent, x);
        case _ =>
      }
      RunKeeps(Step(s, events[0]), events[1..]);
    }
  }

  // Results over whole runs

  /** No message id is reported twice, however replies repeat, get lost or fail. */
  lemma AtMostOneResult(events: seq<Event>, i: nat, j: nat)
    requires i < j < |Run(START, events).results|
    ensures Run(START, events).results[i].msgId != Run(START, events).results[j].msgId
  {
    RunKeeps(START, events);
  }

  /** `key` stands for the open message that was the last one sent under it. */
  ghost predicate OpenUnder(s: State, key: string) {
    && key in s.table && key in s.serials
    && s.serials[key] in s.sent && s.sent[s.serials[key]] == s.table[key] && KeyOf(s.serials[key]) == key
    && forall n | n in s.sent && KeyOf(n) == key :: n <= s.serials[key]
  }

  /** `t` is `s` with the message under `key` closed, after a report for it or without one. */
  ghost predicate Closes(s: State, t: State, key: string)
    requires key in s.table
  {
    && key !in t.table
    && (t.results == s.results
        || exists text, code :: t.results == s.results + [Result(s.table[key], text, code)])
  }

  /**
   * After any run: a reply that is reported is reported for the last message sent under its key, which is open, and
   * closes it; all else a reply can do is to close that message without a report.
   */
  lemma RepliesReachTheLastSender(events: seq<Event>, key: string, agent: bool, x: Extraction)
    ensures
      var s := Run(START, events);
      var t := Reply(s, key, agent, x);
      t == s || (OpenUnder(s, key) && Closes(s, t, key))
  {
    RunsHold(events);
    ReplyCloses(Run(START, events), key, agent, x);
  }

  lemma ReplyCloses(s: State, key: string, agent: bool, x: Extraction)
    requires Inv(s)
    ensures
      var t := Reply(s, key, agent, x);
      t == s || (OpenUnder(s, key) && Closes(s, t, key))
  {
    hide KeyOf, HasStatus, HasText, FixedStatus;
    var t := Reply(s, key, agent, x);
    if key in s.table && t.results != s.results {
      var r := t.results[|s.results|];
      assert t.results == s.results + [Result(s.table[key], r.text, r.code)];
    }
  }

  lemma LastSenderExactlyWhen(s: State, n: nat)
    requires Inv(s) && n in s.sent && KeyOf(n) in s.table
    ensures s.table[KeyOf(n)] == s.sent[n] <==> forall m | m in s.sent && n < m :: !Congruent(m, n)
  {
    forall m | m in s.sent ensures KeyOf(m) == KeyOf(n) <==> Congruent(m, n) {
      KeysCollideExactlyWhen(m, n);
    }
    hide KeyOf, Congruent;
    var last := s.serials[KeyOf(n)];
    assert s.sent[last] == s.sent[n] <==> last == n;
    assert last in s.sent && n <= last && Congruent(last, n);
  }

  /**
   * The reply to message `n`, while it is open at all, is reported for message `n` itself exactly when no later
   * message whose number differs by a multiple of 2^32 has been sent.
   */
  lemma RepliesReachTheirSenderExactlyWhen(events: seq<Event>, n: nat)
    requires n in Run(START, events).sent && KeyOf(n) in Run(START, events).table
    ensures
      var s := Run(START, events);
      s.table[KeyOf(n)] == s.sent[n] <==> forall m | m in s.sent && n < m :: !Congruent(m, n)
  {
    RunsHold(events);
    hide KeyOf, Congruent, Inv;
    LastSenderExactlyWhen(Run(START, events), n);
  }

  lemma RunsHold(events: seq<Event>)
    ensures Inv(Run(START, events))
  {
    assert Inv(START);
    RunKeeps(START, events);
  }

  lemma NearIsNotCongruent(m: nat, n: nat)
    requires 0 < m - n < 0x1_0000_0000
    ensures !Congruent(m, n)
  {
  }

  /** In particular with fewer than 2^32 messages serialized. */
  lemma RepliesReachTheirSender(events: seq<Event>, n: nat)
    requires n in Run(START, events).sent && KeyOf(n) in Run(START, events).table
    requires Run(START, events).serial < 0x1_0000_0000
    ensures Run(START, events).table[KeyOf(n)] == Run(START, events).sent[n]
  {
    var s := Run(START, events);
    RunsHold(events);
    SentInRange(s);
    hide KeyOf, Run, Inv, Congruent;
    RepliesReachTheirSenderExactlyWhen(events, n);
    forall m | m in s.sent && n < m ensures !Congruent(m, n) {
      NearIsNotCongruent(m, n);
    }
  }

  lemma SentInRange(s: State)
    requires Inv(s)
    ensures forall n | n in s.sent :: 1 <= n <= s.serial
  {
  }

  /** A reply that was reported and comes again does nothing. */
  lemma RepeatedRepliesDoNothing(s: State, key: string, agent: bool, x: Extraction, agent': bool, x': Extraction)
    requires Reply(s, key, agent, x).results != s.results
    ensures Reply(Reply(s, key, agent, x), key, agent', x') == Reply(s, key, agent, x)
  {
    hide HasStatus, HasText;
    assert key !in Reply(s, key, agent, x).table;
  }

  // What calls and replies lead to

  /**
   * A message that is sent is open under the key of its transaction; whatever is not sent uses up its message id, and
   * is reported with code 3 for the type, or 5 for the system, unless it is for a system nothing is sent to.
   */
  lemma SendOutcome(s: State, mime: Mime, target: Target, fails: bool)
    ensures
      var t, id := Send(s, mime, target, fails), s.msgs + 1;
      var sent := mime.HexBinary? && target.CiPlus?;
      && t.msgs == id && t.serial == s.serial + (if sent then 1 else 0)
      && t.table == (if sent && !fails then s.table[KeyOf(s.serial + 1) := id] else s.table)
      && t.results == s.results +
                      if mime.UnknownMime? then [Result(id, None, Some(3))]
                      else if target.UnknownSystem? then [Result(id, None, Some(5))]
                      else if target.CiPlus? && mime.OtherMime? then [Result(id, None, Some(3))]
                      else []
  {
    hide KeyOf;
  }

  /** The code a status is reported with: 0 to 5 as they are, but 6 for 3; 1 for others; not-a-number as it is. */
  function ReportedCode(status: Code): Option<int> {
    match status
    case None => None
    case Some(v) => Some(match v case 0 => 0 case 1 => 1 case 2 => 2 case 3 => 6 case 4 => 4 case 5 => 5 case _ => 1)
  }

  /**
   * A reply closes the message under its key, and is reported exactly when there is an agent and the reply has a
   * status and a text; it leaves the message open exactly when it cannot be read or has a status and no text.
   */
  lemma ReplyOutcome(s: State, key: string, agent: bool, x: Extraction)
    ensures
      var t := Reply(s, key, agent, x);
      var usable := agent && x.Types? && HasStatus(x.types) && HasText(x.types);
      && (key in t.table <==> key in s.table && agent && (!x.Types? || (HasStatus(x.types) && !HasText(x.types))))
      && (forall k | k != key :: (k in t.table <==> k in s.table) && (k in s.table ==> t.table[k] == s.table[k]))
      && t.msgs == s.msgs && t.serial == s.serial
      && t.results == s.results +
                      if key in s.table && usable
                      then [Result(s.table[key], Some(x.types[1][0].text), ReportedCode(x.types[8][0].value))]
                      else []
  {
  }
}
