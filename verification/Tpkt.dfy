/** The four-byte frame header in the shape of TPKT (section 6 of RFC 1006): version, reserved, 16-bit length. */
module Tpkt {

  type Byte = x: int | 0 <= x < 256

  /** An unsigned short. */
  type Word = x: int | 0 <= x < 0x1_0000

  datatype ByteOrder = LittleEndian | BigEndian

  const TPKT_HEADER_SIZE := 4
  const TCP_VERSION: Byte := 4

  /** `htons` and `ntohs` (they are the same function): the two bytes swapped on a little-endian machine. */
  function NetworkOrder(o: ByteOrder, w: Word): Word {
    if o.LittleEndian? then (w % 256) * 256 + w / 256 else w
  }

  /** The header that ends up before a message: on a little-endian machine the low byte comes first. */
  function Header(o: ByteOrder, nbytes: nat): (h: seq<Byte>)
    ensures |h| == TPKT_HEADER_SIZE
  {
    var hi, lo := nbytes / 256 % 256, nbytes % 256;
    if o.LittleEndian? then [TCP_VERSION, 0, lo, hi] else [TCP_VERSION, 0, hi, lo]
  }

  /** The length a receiver takes from a header. */
  function Declared(o: ByteOrder, h: seq<Byte>): Word
    requires |h| >= TPKT_HEADER_SIZE
  {
    var b2: int, b3: int := h[2], h[3];
    if o.LittleEndian? then b3 * 256 + b2 else b2 * 256 + b3
  }

  /** The sender's code: the length truncated to an unsigned short, `htons`, then a shift and a mask. */
  lemma HeaderByShifts(o: ByteOrder, nbytes: nat)
    ensures var w := NetworkOrder(o, nbytes % 0x1_0000); Header(o, nbytes) == [TCP_VERSION, 0, w / 256, w % 256]
  {
    var hi, lo := nbytes / 256 % 256, nbytes % 256;
    assert nbytes % 0x1_0000 == hi * 256 + lo;
    assert (lo * 256 + hi) / 256 == lo && (hi * 256 + lo) / 256 == hi;
  }

  /** The receiver's code: a shift and a sum, then `ntohs`. */
  lemma DeclaredByShifts(o: ByteOrder, h: seq<Byte>)
    requires |h| >= TPKT_HEADER_SIZE
    ensures var b2: int, b3: int := h[2], h[3]; Declared(o, h) == NetworkOrder(o, b2 * 256 + b3)
  {
    var b2: int, b3: int := h[2], h[3];
    assert (b2 * 256 + b3) / 256 == b2 && (b2 * 256 + b3) % 256 == b3;
  }

  /** Sender and receiver agree on the length modulo 2^16 exactly when they share a byte order or
      the two length bytes are equal. */
  lemma LengthRoundTrip(sender: ByteOrder, receiver: ByteOrder, nbytes: nat)
    ensures Declared(receiver, Header(sender, nbytes)) == nbytes % 0x1_0000
            <==> sender == receiver || nbytes % 256 == nbytes / 256 % 256
  {
    var hi, lo := nbytes / 256 % 256, nbytes % 256;
    assert nbytes % 0x1_0000 == hi * 256 + lo;
  }

  /** The length on the wire is most significant byte first, as section 6 of RFC 1006 asks, exactly on a
      big-endian sender or when the two bytes are equal: the shifts already fix the order, so the extra
      `htons` undoes it on a little-endian machine. */
  lemma WireOrder(o: ByteOrder, nbytes: nat)
    requires nbytes < 0x1_0000
    ensures Header(o, nbytes)[2..] == [nbytes / 256, nbytes % 256]
            <==> o.BigEndian? || nbytes / 256 == nbytes % 256
  {
    var hi, lo := nbytes / 256, nbytes % 256;
    assert Header(o, nbytes)[2..] == if o.BigEndian? then [hi, lo] else [lo, hi];
    assert [lo, hi] == [hi, lo] <==> lo == hi by {
      assert [lo, hi][0] == lo && [hi, lo][0] == hi;
    }
  }
}
