/** Bytes, fixed-width arithmetic and the small result types shared by every component. */
module Common {

  datatype Option<+T> = None | Some(value: T)

  type byte = b: int | 0 <= b < 0x100
  type uint16 = n: int | 0 <= n < 0x1_0000

  /** The C conversion to `uint8_t`. */
  function U8(n: int): byte {
    n % 0x100
  }

  /** Big-endian 16-bit encoding, the only multi-byte integer order used on the wire here. */
  function Be16(n: uint16): seq<byte> {
    [n / 0x100, n % 0x100]
  }

  function Word(hi: byte, lo: byte): uint16 {
    hi as int * 0x100 + lo as int
  }

  /** Text whose characters all fit in one byte. */
  predicate IsByteText(s: string) {
    forall i | 0 <= i < |s| :: s[i] < 0x100 as char
  }

  /** A C string of bytes seen as text, one character per byte. */
  function Text(bytes: seq<byte>): (s: string)
    ensures |s| == |bytes| && IsByteText(s)
    ensures forall i | 0 <= i < |s| :: s[i] as int == bytes[i]
  {
    seq(|bytes|, i requires 0 <= i < |bytes| => bytes[i] as char)
  }

  function Codes(s: string): (bytes: seq<byte>)
    requires IsByteText(s)
    ensures |bytes| == |s|
    ensures Text(bytes) == s
  {
    seq(|s|, i requires 0 <= i < |s| => s[i] as int)
  }

  function Min(a: int, b: int): int {
    if a < b then a else b
  }

  /** Reading `a` off the front of `a + b` leaves `b`. */
  lemma Cut<T>(p: seq<T>, a: seq<T>, b: seq<T>)
    requires p == a + b
    ensures |a| <= |p| && p[..|a|] == a && p[|a|..] == b
    ensures forall i | 0 <= i < |a| :: p[i] == a[i]
  {
  }

  /** `Cut` for a single element. */
  lemma Head<T>(p: seq<T>, x: T, b: seq<T>)
    requires p == [x] + b
    ensures |p| > 0 && p[0] == x && p[1..] == b
  {
  }

  lemma Regroup<T>(a: seq<T>, b: seq<T>, c: seq<T>)
    ensures a + b + c == a + (b + c)
  {
  }
}
