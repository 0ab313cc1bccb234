/** Finding the end of a request's headers in what has been received so far. */
module HttpFraming {
  import opened Common
  import opened HttpBody

  const LF: byte := 10
  const CR: byte := 13

  /** Not printable, no line break, and below 128. */
  predicate Forbidden(b: byte) {
    (b < 32 || b == 127) && b != CR && b != LF
  }

  /** An empty line ends at `EndOf(s, k)`: two line feeds, the second possibly after a carriage return. */
  predicate EmptyLineAt(s: seq<byte>, k: nat) {
    || (k + 1 < |s| && s[k] == LF && s[k + 1] == LF)
    || (k + 2 < |s| && s[k] == LF && s[k + 1] == CR && s[k + 2] == LF)
  }

  function EndOf(s: seq<byte>, k: nat): nat
    requires EmptyLineAt(s, k)
  {
    if s[k + 1] == LF then k + 2 else k + 3
  }

  /** The first empty line at or after `k`, or the length of `s`. */
  function FirstEmptyLine(s: seq<byte>, k: nat): (r: nat)
    requires k <= |s|
    ensures k <= r <= |s|
    ensures r < |s| ==> EmptyLineAt(s, r)
    ensures forall j: nat | k <= j < r :: !EmptyLineAt(s, j)
    decreases |s| - k
  {
    if k == |s| || EmptyLineAt(s, k) then k else FirstEmptyLine(s, k + 1)
  }

  /** The last byte is not looked at on its own. */
  predicate IsMalformed(s: seq<byte>) {
    exists j | 0 <= j < |s| - 1 :: Forbidden(s[j])
  }

  /** What the documentation of the function promises, read off the bytes. */
  function RequestLen(s: seq<byte>): int {
    var k := FirstEmptyLine(s, 0);
    if k < |s| then EndOf(s, k) else if IsMalformed(s) then -1 else 0
  }

  /** `get_request_len`: the loop goes on after a forbidden character, so that an empty line wins. */
  method GetRequestLen(buf: array<byte>, buflen: nat) returns (len: int)
    requires buflen <= buf.Length
    ensures len == RequestLen(buf[..buflen])
  {
    len := 0;
    var k := 0;
    ghost var s := buf[..buflen];
    while len <= 0 && k < buflen - 1
      invariant 0 <= k <= buflen
      invariant len <= 0 ==> forall j: nat | j < k :: !EmptyLineAt(s, j)
      invariant len <= 0 ==> len == if exists j | 0 <= j < k :: Forbidden(s[j]) then -1 else 0
      invariant len <= 0 ==> k <= (if buflen == 0 then 0 else buflen - 1)
      invariant len > 0 ==> len == RequestLen(s)
      decreases buflen - k
    {
      if Forbidden(buf[k]) {
        assert !EmptyLineAt(s, k);
        len := -1;
      } else if buf[k] == LF && buf[k + 1] == LF {
        FirstIs(s, k);
        len := k + 2;
      } else if buf[k] == LF && k + 1 < buflen - 1 && buf[k + 1] == CR && buf[k + 2] == LF {
        FirstIs(s, k);
        len := k + 3;
      }
      k := k + 1;
    }
    if len <= 0 {
      NoneIs(s);
    }
  }

  lemma FirstIs(s: seq<byte>, k: nat)
    requires EmptyLineAt(s, k) && forall j: nat | j < k :: !EmptyLineAt(s, j)
    ensures FirstEmptyLine(s, 0) == k
  {
    var r := FirstEmptyLine(s, 0);
    if r < k {
      assert false;
    }
  }

  lemma NoneIs(s: seq<byte>)
    requires forall j: nat | j < |s| - 1 :: !EmptyLineAt(s, j)
    ensures FirstEmptyLine(s, 0) == |s|
  {
  }

  /**
   * `read_request` on `data`, of which `n` bytes are already there, when the following receives deliver at most
   * `script[0]`, `script[1]`, ... bytes.
   */
  function Framed(data: seq<byte>, n: nat, script: seq<int>): int
    requires n <= |data|
    decreases |script|
  {
    if script == [] || n == |data| || script[0] <= 0 then 0 else
      var m := n + Min(script[0], |data| - n);
      var r := RequestLen(data[..m]);
      if r != 0 then r else Framed(data, m, script[1..])
  }

  method ReadRequest(sock: Socket, buf: array<byte>, nread: nat) returns (requestLen: int, total: nat)
    requires sock.Valid() && nread <= buf.Length
    modifies sock, buf
    ensures sock.Valid()
    ensures
      var data := old(buf[..nread]) + sock.input[old(sock.received)..];
      var fits := data[..Min(buf.Length, |data|)];
      && requestLen == Framed(fits, nread, old(sock.script))
      && total <= |fits| && buf[..total] == fits[..total]
      && requestLen <= total
  {
    hide RequestLen, EmptyLineAt, FirstEmptyLine;
    requestLen, total := 0, nread;
    ghost var data := buf[..nread] + sock.input[sock.received..];
    ghost var fits := data[..Min(buf.Length, |data|)];
    while total < buf.Length && requestLen == 0
      invariant sock.Valid() && nread <= total <= |fits|
      invariant forall i | 0 <= i < total :: buf[i] == fits[i]
      invariant sock.received == old(sock.received) + total - nread
      invariant requestLen != 0 ==> requestLen == Framed(fits, nread, old(sock.script))
      invariant requestLen == 0 ==> Framed(fits, total, sock.script) == Framed(fits, nread, old(sock.script))
      invariant requestLen <= total
      decreases buf.Length - total
    {
      var n := sock.Pull(buf, total, buf.Length - total);
      if n <= 0 {
        break;
      }
      total := total + n;
      requestLen := GetRequestLen(buf, total);
      assert buf[..total] == fits[..total];
      LengthIsWithin(buf[..total]);
    }
  }

  lemma LengthIsWithin(s: seq<byte>)
    ensures -1 <= RequestLen(s) <= |s|
  {
  }

  lemma EmptyLineOfPrefix(s: seq<byte>, m: nat, k: nat)
    requires m <= |s|
    ensures EmptyLineAt(s[..m], k) <==> EmptyLineAt(s, k) && EndOf(s, k) <= m
    ensures EmptyLineAt(s[..m], k) ==> EndOf(s[..m], k) == EndOf(s, k)
  {
  }

  /** What `get_request_len` says of the first `m` bytes only. */
  lemma LengthOfPrefix(s: seq<byte>, m: nat)
    requires m <= |s|
    ensures
      var k := FirstEmptyLine(s, 0);
      RequestLen(s[..m]) ==
      if k < |s| && EndOf(s, k) <= m then EndOf(s, k) else if IsMalformed(s[..m]) then -1 else 0
  {
    var k := FirstEmptyLine(s, 0);
    forall j: nat
      ensures EmptyLineAt(s[..m], j) ==>
                EmptyLineAt(s, j) && EndOf(s, j) <= m && EndOf(s[..m], j) == EndOf(s, j)
    {
      EmptyLineOfPrefix(s, m, j);
    }
    if k < |s| && EndOf(s, k) <= m {
      EmptyLineOfPrefix(s, m, k);
      FirstIs(s[..m], k);
    } else {
      NoneIs(s[..m]);
    }
  }

  /** A positive result is the end of the first empty line, whatever comes before or after it. */
  lemma PositiveLengthIsTheFirstEmptyLine(s: seq<byte>)
    ensures RequestLen(s) > 0 <==> exists k: nat :: EmptyLineAt(s, k)
    ensures RequestLen(s) > 0 ==>
      exists k: nat :: EmptyLineAt(s, k) && RequestLen(s) == EndOf(s, k) && forall j: nat | j < k :: !EmptyLineAt(s, j)
    ensures RequestLen(s) == -1 ==> IsMalformed(s)
  {
    var k := FirstEmptyLine(s, 0);
    if k == |s| {
      forall j: nat ensures !EmptyLineAt(s, j) {
      }
    }
  }

  /** The receives make all of the next `left` bytes available. */
  predicate Delivers(script: seq<int>, left: nat) {
    left == 0 || (script != [] && script[0] > 0 && (left <= script[0] || Delivers(script[1..], left - script[0])))
  }

  /** A forbidden character stands before the first empty line. */
  ghost predicate Spoiled(data: seq<byte>) {
    var k := FirstEmptyLine(data, 0);
    k < |data| && exists j | 0 <= j < k :: Forbidden(data[j])
  }

  lemma {:induction false} CleanDataFramesAlike(data: seq<byte>, n: nat, script: seq<int>)
    requires n <= |data| && RequestLen(data[..n]) == 0
    requires !Spoiled(data) && Delivers(script, |data| - n)
    ensures Framed(data, n, script) == RequestLen(data)
    decreases |script|
  {
    assert data[..|data|] == data;
    if n < |data| {
      var m := n + Min(script[0], |data| - n);
      LengthOfPrefix(data, m);
      if RequestLen(data[..m]) == 0 {
        CleanDataFramesAlike(data, m, script[1..]);
      } else if RequestLen(data[..m]) == -1 {
        MalformedPrefix(data, m);
      }
    }
  }

  lemma MalformedPrefix(data: seq<byte>, m: nat)
    requires m <= |data| && RequestLen(data[..m]) == -1 && !Spoiled(data)
    ensures RequestLen(data) == -1
  {
    LengthOfPrefix(data, m);
    var j :| 0 <= j < m - 1 && Forbidden(data[..m][j]);
    var k := FirstEmptyLine(data, 0);
    assert Forbidden(data[j]);
    if k < |data| {
      assert false;
    }
  }

  /** A receive that ends right behind the byte after the forbidden character makes the request malformed. */
  lemma SpoiledDataCanFail(data: seq<byte>, n: nat) returns (script: seq<int>)
    requires n <= |data| && RequestLen(data[..n]) == 0 && Spoiled(data)
    ensures Delivers(script, |data| - n)
    ensures Framed(data, n, script) == -1 && RequestLen(data) > 0
  {
    var k := FirstEmptyLine(data, 0);
    var j :| 0 <= j < k && Forbidden(data[j]);
    LengthOfPrefix(data, n);
    assert !IsMalformed(data[..n]);
    assert forall i | 0 <= i < n - 1 :: !Forbidden(data[..n][i]);
    LengthOfPrefix(data, j + 2);
    assert Forbidden(data[..j + 2][j]);
    assert IsMalformed(data[..j + 2]);
    script := [j + 2 - n, |data|];
    assert script[1..] == [|data|];
  }

  /**
   * Chunking does not matter: however the bytes are split into receives, `read_request` finds what
   * `get_request_len` says of all of them - exactly when no forbidden character precedes the first empty line.
   */
  lemma ChunkingDoesNotMatterExactlyWhen(data: seq<byte>, n: nat)
    requires n <= |data| && RequestLen(data[..n]) == 0
    ensures (forall script: seq<int> | Delivers(script, |data| - n) :: Framed(data, n, script) == RequestLen(data))
       <==> !Spoiled(data)
  {
    if Spoiled(data) {
      var script := SpoiledDataCanFail(data, n);
      assert Framed(data, n, script) != RequestLen(data);
    } else {
      forall script: seq<int> | Delivers(script, |data| - n) ensures Framed(data, n, script) == RequestLen(data) {
        CleanDataFramesAlike(data, n, script);
      }
    }
  }

  /** The characters that spoil a request: the control characters of ASCII but the two of a line break. */
  lemma ForbiddenCharacters(b: byte)
    ensures Forbidden(b) <==> b in [0, 1, 2, 3, 4, 5, 6, 7, 8, 9, 11, 12, 14, 15, 16, 17, 18, 19, 20, 21, 22, 23, 24,
                                    25, 26, 27, 28, 29, 30, 31, 127]
  {
  }

  /** An empty line is two line feeds in a row, or two with a carriage return between them. */
  lemma EmptyLineBytes(s: seq<byte>, k: nat)
    requires k <= |s|
    ensures EmptyLineAt(s, k) <==> [10, 10] <= s[k..] || [10, 13, 10] <= s[k..]
    ensures EmptyLineAt(s, k) ==> EndOf(s, k) == k + if [10, 10] <= s[k..] then 2 else 3
  {
    var t := s[k..];
    assert k + 1 < |s| ==> t[0] == s[k] && t[1] == s[k + 1];
    assert k + 2 < |s| ==> t[2] == s[k + 2];
  }
}
