/** The 256-bit record of received section numbers: bytes in memory, a set of numbers in meaning. */
module AitMask {
  import opened Common

  const MASK_BYTES := 32

  function EmptyMask(): (mask: seq<bv8>)
    ensures |mask| == MASK_BYTES
    ensures forall i | 0 <= i < MASK_BYTES :: mask[i] == 0
  {
    seq(MASK_BYTES, _ => 0)
  }

  predicate Bit(b: bv8, k: nat)
    requires k < 8
  {
    b & ((1 as bv8) << k) != 0
  }

  predicate Marked(mask: seq<bv8>, n: byte)
    requires |mask| == MASK_BYTES
  {
    Bit(mask[n / 8], n % 8)
  }

  function Mark(mask: seq<bv8>, n: byte): (r: seq<bv8>)
    requires |mask| == MASK_BYTES
    ensures |r| == MASK_BYTES
  {
    mask[n / 8 := mask[n / 8] | ((1 as bv8) << (n % 8))]
  }

  /** The section numbers the mask stands for. */
  ghost function Received(mask: seq<bv8>): set<byte>
    requires |mask| == MASK_BYTES
  {
    set n: byte | Marked(mask, n)
  }

  /**
   * What the completeness test of the parser decides: section 0 of a one-section table is taken as complete
   * at once; otherwise every number up to `last` must be there, and none of the higher numbers that share
   * the last byte of the mask.
   */
  ghost predicate CompleteBy(received: set<byte>, n: byte, last: byte) {
    (n == 0 && last == 0) ||
    ((forall k: byte | k <= last :: k in received) &&
     (forall k: byte | last < k && k / 8 == last / 8 :: k !in received))
  }

  lemma OrBit(b: bv8, j: nat, k: nat)
    requires j < 8 && k < 8
    ensures Bit(b | ((1 as bv8) << j), k) <==> k == j || Bit(b, k)
  {
  }

  lemma EmptyMaskIsEmpty()
    ensures Received(EmptyMask()) == {}
  {
    forall n: byte ensures !Marked(EmptyMask(), n) {
      assert EmptyMask()[n / 8] == 0;
    }
  }

  /** The byte mask refines a set: marking a section adds its number and nothing else. */
  lemma MarkAddsOne(mask: seq<bv8>, n: byte)
    requires |mask| == MASK_BYTES
    ensures Received(Mark(mask, n)) == Received(mask) + {n}
  {
    hide Bit;
    forall k: byte ensures Marked(Mark(mask, n), k) <==> k == n || Marked(mask, k) {
      if k / 8 == n / 8 {
        OrBit(mask[n / 8], n % 8, k % 8);
      }
    }
  }

  lemma FullByte(b: bv8)
    ensures b == 0xFF <==> forall k: nat | k < 8 :: Bit(b, k)
  {
    if forall k: nat | k < 8 :: Bit(b, k) {
      assert Bit(b, 0) && Bit(b, 1) && Bit(b, 2) && Bit(b, 3) && Bit(b, 4) && Bit(b, 5) && Bit(b, 6) && Bit(b, 7);
    }
  }

  /** The last byte's mask as the parser computes it in a `uint8_t`; for shift 7 the shift wraps to 0. */
  function LowBits(shift: nat): bv8
    requires shift < 8
  {
    ((1 as bv8) << (shift + 1)) - 1
  }

  lemma LowByte(b: bv8, shift: nat)
    requires shift < 8
    ensures b == LowBits(shift) <==> forall k: nat | k < 8 :: Bit(b, k) <==> k <= shift
  {
    if forall k: nat | k < 8 :: Bit(b, k) <==> k <= shift {
      assert Bit(b, 0);
      assert Bit(b, 1) <==> 1 <= shift;
      assert Bit(b, 2) <==> 2 <= shift;
      assert Bit(b, 3) <==> 3 <= shift;
      assert Bit(b, 4) <==> 4 <= shift;
      assert Bit(b, 5) <==> 5 <= shift;
      assert Bit(b, 6) <==> 6 <= shift;
      assert Bit(b, 7) <==> 7 <= shift;
    }
  }

  lemma FullSlot(mask: seq<bv8>, i: nat)
    requires |mask| == MASK_BYTES && i < MASK_BYTES
    ensures mask[i] == 0xFF <==> forall n: byte | n / 8 == i :: Marked(mask, n)
  {
    FullByte(mask[i]);
    if forall n: byte | n / 8 == i :: Marked(mask, n) {
      forall k: nat | k < 8 ensures Bit(mask[i], k) {
        assert Marked(mask, 8 * i + k);
      }
    }
  }

  lemma LastSlot(mask: seq<bv8>, last: byte)
    requires |mask| == MASK_BYTES
    ensures mask[last / 8] == LowBits(last % 8) <==>
            forall n: byte | n / 8 == last / 8 :: Marked(mask, n) <==> n <= last
  {
    LowByte(mask[last / 8], last % 8);
    if forall n: byte | n / 8 == last / 8 :: Marked(mask, n) <==> n <= last {
      forall k: nat | k < 8 ensures Bit(mask[last / 8], k) <==> k <= last % 8 {
        assert Marked(mask, last / 8 * 8 + k) <==> last / 8 * 8 + k <= last;
      }
    }
  }

  lemma CompleteBySlots(mask: seq<bv8>, n: byte, last: byte)
    requires |mask| == MASK_BYTES && !(n == 0 && last == 0)
    ensures CompleteBy(Received(mask), n, last) <==>
            (forall i | 0 <= i < last / 8 :: mask[i] == 0xFF) && mask[last / 8] == LowBits(last % 8)
  {
    var received := Received(mask);
    LastSlot(mask, last);
    if CompleteBy(received, n, last) {
      forall i | 0 <= i < last / 8 ensures mask[i] == 0xFF {
        forall k: byte | k / 8 == i ensures Marked(mask, k) {
          assert k <= last;
          assert k in received;
        }
        FullSlot(mask, i);
      }
      forall k: byte | k / 8 == last / 8 ensures Marked(mask, k) <==> k <= last {
        assert k in received <==> Marked(mask, k);
      }
    }
    if (forall i | 0 <= i < last / 8 :: mask[i] == 0xFF) && mask[last / 8] == LowBits(last % 8) {
      forall k: byte | k <= last ensures k in received {
        if k / 8 < last / 8 {
          FullSlot(mask, k / 8);
        }
        assert Marked(mask, k);
      }
      forall k: byte | last < k && k / 8 == last / 8 ensures k !in received {
        assert !Marked(mask, k);
      }
      assert CompleteBy(received, n, last);
    }
  }

  method SectionReceived(mask: seq<bv8>, n: byte) returns (r: bool)
    requires |mask| == MASK_BYTES
    ensures r <==> n in Received(mask)
  {
    var index := n / 8;
    var bit := (1 as bv8) << (n % 8);
    r := mask[index] & bit != 0;
    assert Marked(mask, n) <==> r;
  }

  method MarkSectionReceived(mask: array<bv8>, n: byte, last: byte) returns (complete: bool)
    requires mask.Length == MASK_BYTES
    modifies mask
    ensures mask[..] == Mark(old(mask[..]), n)
    ensures Received(mask[..]) == Received(old(mask[..])) + {n}
    ensures complete <==> CompleteBy(Received(mask[..]), n, last)
  {
    MarkAddsOne(mask[..], n);
    var index := n / 8;
    mask[index] := mask[index] | ((1 as bv8) << (n % 8));
    ghost var s := mask[..];
    if n == 0 && last == 0 {
      complete := true;
    } else {
      index := last / 8;
      complete := true;
      var i := 0;
      while i < index
        invariant 0 <= i <= index && mask[..] == s
        invariant complete && forall j | 0 <= j < i :: s[j] == 0xFF
      {
        if mask[i] != 0xFF {
          complete := false;
          break;
        }
        i := i + 1;
      }
      CompleteBySlots(s, n, last);
      if complete {
        if mask[index] != LowBits(last % 8) {
          complete := false;
        }
      }
    }
  }
}
