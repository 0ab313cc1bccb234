/** The part of the DRM manager that sends messages to a CI+ module and handles its replies. */
module CiPlusAgent {
  import opened Common
  import opened CiPlusWire
  import opened CiPlusReplies

  const OIPF_APPLICATION_ID_V2_2 := "0108113101190000"
  const OIPF_APPLICATION_ID_V2_3 := "0108113101190001"

  const SEND_MSG: byte := 1
  const REPLY_MSG: byte := 2
  const VENDOR_SPECIFIC_INFORMATION: byte := 1

  /** Whenever a status or a text was extracted it is of the kind the agent expects. */
  lemma PresentMeansUsable(m: seq<byte>)
    requires Extract(m).Types?
    ensures HasStatus(Extract(m).types) <==> 8 in Extract(m).types
    ensures HasText(Extract(m).types) <==> 1 in Extract(m).types
  {
    if |m| >= 8 {
      ExtractedIsTyped(m, Some(8), m[7], map[]);
    }
    assert Typed(Extract(m).types);
  }

  class DrmManager {
    var gMsgIdCounter: nat
    var gCiplusTransactionId: int
    var ciplusMessages: map<string, nat>
    var results: seq<Result>
    /** An agent object has been registered. */
    var hasAgent: bool
    ghost var serial: nat
    ghost var serials: map<string, nat>
    ghost var sent: map<nat, nat>

    ghost predicate Valid()
      reads this
    {
      gCiplusTransactionId == ToInt32(serial)
    }

    ghost function Now(): State
      reads this
    {
      State(gMsgIdCounter, serial, ciplusMessages, serials, sent, results)
    }

    constructor ()
      ensures Valid() && Now() == START && !hasAgent
    {
      gMsgIdCounter, gCiplusTransactionId, ciplusMessages, results, hasAgent := 0, 0, map[], [], false;
      serial, serials, sent := 0, map[], map[];
    }

    /** The bytes before base64, or nothing when base64 refuses them; the next transaction id is taken either way. */
    method SerializeCiplusMessage(urn: string, command: byte, datatypeId: byte, data: string)
      returns (r: Option<seq<byte>>)
      requires Valid()
      modifies this`gCiplusTransactionId, this`serial
      ensures Valid() && serial == old(serial) + 1
      ensures r == Serialized(command, urn, gCiplusTransactionId, datatypeId, data)
    {
      hide UrnToInt, ByteOf, ParseInt16;
      var id := UrnToInt(urn);
      var head := [command, ByteOf(id, 0x100), ByteOf(id, 1)];
      CounterAdvances(serial);
      gCiplusTransactionId := ToInt32(gCiplusTransactionId + 1);
      serial := serial + 1;
      head := head + TransactionBytes(gCiplusTransactionId);
      var len := |data| / 2;
      var front := [1, datatypeId, ByteOf(len, 0x100), ByteOf(len, 1)];
      ghost var all := Pushed(data);
      var pushed: seq<int> := [];
      var i := 0;
      while i < |data|
        invariant 0 <= i && i % 2 == 0 && i < |data| + 2
        invariant |pushed| == i / 2 && pushed == all[..i / 2]
      {
        pushed := pushed + [ParseInt16(data[i..Min(i + 2, |data|)])];
        i := i + 2;
      }
      assert pushed == all;
      r := if Encodable(pushed) then Some(head + (front + AsBytes(pushed))) else None;
    }

    /** Serializes message `msgId` and files it, as `commonSendDRMMessage` does, under the new transaction id. */
    method CommonSend(msgId: nat, data: string, urn: string) returns (m: Option<seq<byte>>)
      requires Valid()
      modifies this
      ensures Valid() && hasAgent == old(hasAgent)
      ensures Now() == if m.Some? then Filed(old(Now()), msgId).(msgs := old(gMsgIdCounter))
                       else old(Now()).(serial := old(serial) + 1)
      ensures m == Serialized(SEND_MSG, urn, gCiplusTransactionId, VENDOR_SPECIFIC_INFORMATION, data)
    {
      hide Key, ToInt32, CiPlusWire.Serialized;
      m := SerializeCiplusMessage(urn, SEND_MSG, VENDOR_SPECIFIC_INFORMATION, data);
      if m.Some? {
        ciplusMessages := ciplusMessages[Key(gCiplusTransactionId) := msgId];
        serials, sent := serials[KeyOf(serial) := serial], sent[serial := msgId];
      }
    }

    /**
     * The message that goes out carries the key under which it was filed. `fails` is the exception that data which is
     * not hexadecimal can cause.
     */
    method SendDRMMessage(mime: Mime, data: string, urn: string, target: Target)
      returns (msgId: nat, m: Option<seq<byte>>, fails: bool)
      requires Valid()
      modifies this
      ensures Valid() && hasAgent == old(hasAgent)
      ensures Now() == Send(old(Now()), mime, target, fails)
      ensures msgId == gMsgIdCounter == old(gMsgIdCounter) + 1
      ensures m.Some? || fails <==> mime.HexBinary? && target.CiPlus?
      ensures m.Some? ==> !fails && IsFiled(m.value, msgId)
      ensures IsHexBinary(data) ==> !fails
    {
      hide ParseHeader, Key, ToInt32, IsHexBinary, CiPlusWire.Serialized, Pushed, Encodable;
      gMsgIdCounter := gMsgIdCounter + 1;
      msgId, m, fails := gMsgIdCounter, None, false;
      var result := 0;
      if mime.UnknownMime? {
        result := MSG_UNKNOWN_MIME_TYPE;
      } else if target.UnknownSystem? {
        result := MSG_UNKNOWN_DRM_SYSTEM;
      } else if target.CiPlus? {
        if mime.HexBinary? {
          m := CommonSend(msgId, data, urn);
          fails := m.None?;
          if m.Some? {
            HeaderRoundTripExactlyWhen(SEND_MSG, urn, gCiplusTransactionId, VENDOR_SPECIFIC_INFORMATION, data);
          }
          if IsHexBinary(data) {
            HexDataIsSent(urn, gCiplusTransactionId, data);
          }
        } else {
          result := MSG_UNKNOWN_MIME_TYPE;
        }
      }
      if result != 0 {
        results := results + [Result(msgId, None, Some(result))];
      }
    }

    lemma HexDataIsSent(urn: string, g: int, data: string)
      requires IsHexBinary(data)
      ensures Serialized(SEND_MSG, urn, g, VENDOR_SPECIFIC_INFORMATION, data).Some?
    {
      HexDataIsPushed(data);
    }

    ghost predicate IsFiled(m: seq<byte>, msgId: nat)
      reads this
    {
      && |m| >= 7
      && var h := ParseHeader(m);
         h.command == SEND_MSG && h.key in ciplusMessages && ciplusMessages[h.key] == msgId
    }

    /** `canPlayContent` and `canRecordContent`, as far as the message they serialize. */
    method ProbeContent(command: byte, data: string, urn: string) returns (m: Option<seq<byte>>)
      requires Valid()
      modifies this`gCiplusTransactionId, this`serial
      ensures Valid() && Now() == Step(old(Now()), Probe)
      ensures m == Serialized(command, urn, gCiplusTransactionId, 9, data)
    {
      hide CiPlusWire.Serialized;
      m := SerializeCiplusMessage(urn, command, 9, data);
    }

    /** The next lower application id to try, after `tried`; the tries end because the list does. */
    method TryNextAppId(tried: Option<string>) returns (next: Option<string>)
      modifies this`gMsgIdCounter
      ensures next == if tried.None? then Some(OIPF_APPLICATION_ID_V2_3)
                      else if tried.value == OIPF_APPLICATION_ID_V2_3 then Some(OIPF_APPLICATION_ID_V2_2) else None
      ensures Now() == if next.Some? then Step(old(Now()), Connect) else old(Now())
    {
      var ids := [OIPF_APPLICATION_ID_V2_2, OIPF_APPLICATION_ID_V2_3];
      var index := |ids|;
      if tried.Some? {
        index := if tried.value == ids[0] then 0 else if tried.value == ids[1] then 1 else -1;
      }
      next := None;
      if index != -1 && index > 0 {
        index := index - 1;
        gMsgIdCounter := gMsgIdCounter + 1;
        next := Some(ids[index]);
      }
    }

    /** The `reply_msg` case of `handleCiPlusMessage`; with fewer than seven bytes the key is not a number's. */
    method OnReply(m: seq<byte>)
      requires Valid() && m != [] && m[0] == REPLY_MSG
      modifies this
      ensures Valid() && hasAgent == old(hasAgent)
      ensures Now() == if |m| < 7 then old(Now()) else Reply(old(Now()), ParseHeader(m).key, hasAgent, Extract(m))
    {
      if |m| < 7 {
        return;
      }
      var key := ParseHeader(m).key;
      if key in ciplusMessages {
        if hasAgent {
          var x := ExtractDataTypes(m);
          if x.Throws? {
            return;
          }
          PresentMeansUsable(m);
          if 8 in x.types {
            if 1 !in x.types {
              return;
            }
            var status := x.types[8][0].value;
            results := results + [Result(ciplusMessages[key], Some(x.types[1][0].text), FixedStatus(status))];
          }
        }
        ciplusMessages := ciplusMessages - {key};
        serials := serials - {key};
      }
    }
  }
}
