/** Reading the body of a request: first what was buffered behind the headers, then the socket. */
module HttpBody {
  import opened Common

  /**
   * A connected socket. `input` is all the remote end will ever send; how much of it each `recv` delivers, and when
   * it delivers nothing (end of stream, error), is decided outside.
   */
  class Socket {
    const input: seq<byte>
    var received: nat
    /** What the next calls of `recv` deliver at most; nothing once the list is used up. */
    var script: seq<int>
    /** The last `recv` delivered nothing. */
    ghost var failed: bool

    ghost predicate Valid()
      reads this
    {
      received <= |input|
    }

    constructor (input: seq<byte>, script: seq<int>)
      ensures Valid() && this.input == input && this.script == script && received == 0 && !failed
    {
      this.input, this.script, received, failed := input, script, 0, false;
    }

    /** `pull`: stores up to `len` bytes at `buf[at..]` and returns how many, or a value below 1. */
    method Pull(buf: array<byte>, at: nat, len: nat) returns (n: int)
      requires Valid() && at + len <= buf.Length
      modifies this, buf
      ensures Valid() && failed == (n <= 0)
      ensures script == if old(script) == [] then [] else old(script)[1..]
      ensures n == if old(script) == [] then 0 else Min(old(script)[0], Min(len, |input| - old(received)))
      ensures received == old(received) + if n <= 0 then 0 else n
      ensures forall i | 0 <= i < buf.Length ::
        buf[i] == if at <= i < at + n then input[old(received) + i - at] else old(buf[i])
    {
      if script == [] {
        failed := true;
        return 0;
      }
      n := Min(script[0], Min(len, |input| - received));
      script := script[1..];
      failed := n <= 0;
      if n <= 0 {
        return n;
      }
      ghost var was := buf[..];
      var i := 0;
      while i < n
        invariant 0 <= i <= n
        invariant forall j | 0 <= j < buf.Length ::
          buf[j] == if at <= j < at + i then input[received + j - at] else was[j]
        modifies buf
      {
        buf[at + i] := input[received + i];
        i := i + 1;
      }
      received := received + n;
    }
  }

  /** Where the socket stands once `consumed` bytes of a body with `buffered` bytes at hand have been read. */
  function Drawn(buffered: nat, consumed: nat): nat {
    if consumed <= buffered then 0 else consumed - buffered
  }

  class Connection {
    const sock: Socket
    /** The request buffer: `requestLen` bytes of headers, then what came with them. */
    const buf: array<byte>
    const requestLen: nat
    const dataLen: nat
    /** The Content-Length header, or -1. */
    const contentLen: int
    var consumedContent: nat
    /** Where the socket was when the headers had been read. */
    ghost const start: nat
    /** Everything the body reader has returned so far. */
    ghost var delivered: seq<byte>

    ghost predicate Valid()
      reads this, sock, buf
    {
      && sock.Valid() && start <= |sock.input|
      && requestLen <= dataLen <= buf.Length
      && (consumedContent <= contentLen || (contentLen == -1 && consumedContent == 0))
      && sock.received == start + Drawn(dataLen - requestLen, consumedContent)
      && delivered == Stream()[..consumedContent]
    }

    /** The bytes that follow the headers on the wire. */
    ghost function Stream(): seq<byte>
      requires requestLen <= dataLen <= buf.Length && start <= |sock.input|
      reads buf
    {
      buf[requestLen..dataLen] + sock.input[start..]
    }

    constructor (sock: Socket, buf: array<byte>, requestLen: nat, dataLen: nat, contentLen: int)
      requires sock.Valid() && requestLen <= dataLen <= buf.Length && -1 <= contentLen
      ensures Valid() && delivered == [] && consumedContent == 0
      ensures this.sock == sock && this.buf == buf && this.contentLen == contentLen
      ensures Stream() == buf[requestLen..dataLen] + sock.input[sock.received..]
    {
      this.sock, this.buf, this.requestLen, this.dataLen := sock, buf, requestLen, dataLen;
      this.contentLen, consumedContent := contentLen, 0;
      start, delivered := sock.received, [];
    }

    /** How much a read of `len` bytes is allowed to return. */
    function Wanted(len: nat): nat
      requires consumedContent <= contentLen || (contentLen == -1 && consumedContent == 0)
      reads this
    {
      if contentLen == -1 then 0 else Min(len, contentLen - consumedContent)
    }

    /**
     * `mg_read`: `out` receives the next bytes of the stream, and what all reads have returned, joined, stays a
     * prefix of the first `contentLen` bytes of the stream. Less than asked for comes back only at the end of the
     * content or when the socket gave nothing.
     */
    method Read(out: array<byte>, len: nat) returns (nread: nat)
      requires Valid() && len <= out.Length && out != buf
      modifies this`consumedContent, this`delivered, sock, out
      ensures Valid()
      ensures nread <= old(Wanted(len))
      ensures nread < old(Wanted(len)) ==> sock.failed
      ensures consumedContent == old(consumedContent) + nread
      ensures delivered == old(delivered) + out[..nread]
      ensures out[nread..] == old(out[nread..])
    {
      nread := 0;
      assert (contentLen == -1 && consumedContent == 0) || consumedContent <= contentLen;
      ghost var stream, was, first := Stream(), out[..], consumedContent;
      if consumedContent < contentLen {
        var left := Min(len, contentLen - consumedContent);
        var bufferedLen := dataLen - requestLen;
        if consumedContent < bufferedLen {
          bufferedLen := Min(left, bufferedLen - consumedContent);
          Copy(out, requestLen + consumedContent, bufferedLen);
          left := left - bufferedLen;
          consumedContent := consumedContent + bufferedLen;
          nread := bufferedLen;
        }
        assert forall i | 0 <= i < nread :: out[i] == stream[first + i];
        var n := ReadSocket(out, nread, left);
        nread := nread + n;
      }
      SlicesJoin(stream, first, consumedContent, out[..nread]);
      delivered := stream[..consumedContent];
    }

    lemma SlicesJoin(stream: seq<byte>, first: nat, upto: nat, middle: seq<byte>)
      requires first <= upto <= |stream| && |middle| == upto - first
      requires forall i | 0 <= i < |middle| :: middle[i] == stream[first + i]
      ensures stream[..upto] == stream[..first] + middle
    {
    }

    /** The second half of `mg_read`: `left` bytes from the socket, to `out[at..]`. */
    method ReadSocket(out: array<byte>, at: nat, left: nat) returns (nread: nat)
      requires sock.Valid() && start <= |sock.input| && requestLen <= dataLen <= buf.Length
      requires at + left <= out.Length && out != buf
      requires sock.received == start + Drawn(dataLen - requestLen, consumedContent)
      requires 0 < left ==> dataLen - requestLen <= consumedContent
      requires consumedContent <= |Stream()|
      modifies this`consumedContent, sock, out
      ensures sock.Valid() && sock.received == start + Drawn(dataLen - requestLen, consumedContent)
      ensures nread <= left && (nread < left ==> sock.failed)
      ensures consumedContent == old(consumedContent) + nread <= |Stream()|
      ensures forall i | 0 <= i < out.Length ::
        out[i] == if at <= i < at + nread then Stream()[old(consumedContent) + i - at] else old(out[i])
    {
      nread := 0;
      while nread < left
        invariant nread <= left && consumedContent == old(consumedContent) + nread
        invariant sock.Valid() && sock.received == start + Drawn(dataLen - requestLen, consumedContent)
        invariant consumedContent <= |Stream()|
        invariant forall i | 0 <= i < out.Length ::
          out[i] == if at <= i < at + nread then Stream()[old(consumedContent) + i - at] else old(out[i])
      {
        var n := sock.Pull(out, at + nread, left - nread);
        if n <= 0 {
          break;
        }
        consumedContent := consumedContent + n;
        nread := nread + n;
      }
    }

    /** `memcpy` from the request buffer. */
    method Copy(out: array<byte>, from: nat, n: nat)
      requires from + n <= buf.Length && n <= out.Length && out != buf
      modifies out
      ensures forall i | 0 <= i < out.Length :: out[i] == if i < n then buf[from + i] else old(out[i])
    {
      var i := 0;
      while i < n
        invariant 0 <= i <= n
        invariant forall j | 0 <= j < out.Length :: out[j] == if j < i then buf[from + j] else old(out[j])
      {
        out[i] := buf[from + i];
        i := i + 1;
      }
    }

    /**
     * `discard_current_request_from_buffer`: afterwards the whole content has been read, or the socket gave
     * nothing; without a Content-Length nothing is discarded.
     */
    method Discard()
      requires Valid()
      modifies this`consumedContent, this`delivered, sock
      ensures Valid()
      ensures consumedContent == contentLen || contentLen == -1 || sock.failed
      ensures old(delivered) <= delivered
      ensures contentLen == -1 ==> sock.received == old(sock.received)
    {
      var discardBuffer := new byte[16384];
      if contentLen != -1 && consumedContent < contentLen {
        var remaining := contentLen - consumedContent;
        while remaining > 0
          invariant Valid() && fresh(discardBuffer) && discardBuffer.Length == 16384
          invariant remaining == contentLen - consumedContent
          invariant old(delivered) <= delivered
        {
          var pullLen := Min(remaining, discardBuffer.Length);
          var count := Read(discardBuffer, pullLen);
          if count <= 0 {
            break;
          }
          remaining := remaining - count;
        }
      }
    }
  }

  /** Whatever the read lengths and the chunks were: two readers of one body have one content between them. */
  lemma ReadersAgree(a: Connection, b: Connection)
    requires a.Valid() && b.Valid() && a.Stream() == b.Stream() && a.contentLen == b.contentLen
    ensures a.delivered <= b.delivered || b.delivered <= a.delivered
    ensures a.consumedContent == a.contentLen == b.consumedContent ==> a.delivered == b.delivered
  {
    var stream := a.Stream();
    assert a.delivered == stream[..a.consumedContent] && b.delivered == stream[..b.consumedContent];
  }
}
