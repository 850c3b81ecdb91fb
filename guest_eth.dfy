/**
 * The receive side of the guest platform's Ethernet device
 * (platforms/guest/src/eth.rs): frames read from the host interface are
 * kept in `RECV_RING` when they are addressed to this machine or carry ARP,
 * and `recv` hands out the most recently kept one.
 */
module GuestEth {
  import opened Wrappers

  /** The machine's MAC address. */
  const MACADDR: seq<bv8> := [0x12, 0x13, 0x89, 0x89, 0xdf, 0x53]
  const DMAC_BEGIN: nat := 0
  const DMAC_END: nat := 5
  const ETH_TYPE_BEGIN: nat := 12
  const ETH_TYPE_END: nat := 13

  /**
   * `is_valid_packet`: the destination MAC is ours, or the EtherType is
   * 0x0806 (ARP, RFC 826). None stands for the index panic of a frame too
   * short for the bytes it reads; the `&&` does not read byte 13 when byte
   * 12 is not 8.
   */
  function IsValidPacket(buf: seq<bv8>): (r: Option<bool>)
    ensures r.None? <==> |buf| < ETH_TYPE_END || (|buf| == ETH_TYPE_END && buf[ETH_TYPE_BEGIN] == 8)
    ensures r.Some? ==> (r.value <==> (buf[..6] == MACADDR ||
      (|buf| > ETH_TYPE_END && buf[ETH_TYPE_BEGIN] == 8 && buf[ETH_TYPE_END] == 6)))
  {
    if |buf| <= DMAC_END then None
    else
      var isValid := buf[DMAC_BEGIN..DMAC_END + 1] == MACADDR;
      if |buf| <= ETH_TYPE_BEGIN then None
      else if buf[ETH_TYPE_BEGIN] != 8 then Some(isValid)
      else if |buf| <= ETH_TYPE_END then None
      else Some(isValid || buf[ETH_TYPE_END] == 6)
  }

  /** Every frame of at least 14 bytes is judged without a panic, and ARP frames are kept whatever their address. */
  lemma FullHeaderJudged(buf: seq<bv8>)
    requires |buf| > ETH_TYPE_END
    ensures IsValidPacket(buf).Some?
    ensures buf[ETH_TYPE_BEGIN] == 0x08 && buf[ETH_TYPE_END] == 0x06 ==> IsValidPacket(buf) == Some(true)
    ensures buf[..6] == MACADDR ==> IsValidPacket(buf) == Some(true)
  {
  }

  /** `pop_back` of the ring: the newest frame and the ring without it. */
  function PopBack(ring: seq<seq<bv8>>): (Option<seq<bv8>>, seq<seq<bv8>>)
  {
    if ring == [] then (None, ring) else (Some(ring[|ring| - 1]), ring[..|ring| - 1])
  }

  /** `recv` after a push takes the frame just pushed: the ring is last in, first out. */
  lemma PopBackUndoesPush(ring: seq<seq<bv8>>, frame: seq<bv8>)
    ensures PopBack(ring + [frame]) == (Some(frame), ring)
  {
    assert (ring + [frame])[..|ring|] == ring;
  }

  /** A buffer after `copy_from_slice` of the first `min(len)` bytes of a frame. */
  function CopyPrefix(buf: seq<bv8>, frame: seq<bv8>): (r: seq<bv8>)
    ensures |r| == |buf|
    ensures var n := if |frame| < |buf| then |frame| else |buf|;
      r[..n] == frame[..n] && r[n..] == buf[n..]
  {
    var n := if |frame| < |buf| then |frame| else |buf|;
    frame[..n] + buf[n..]
  }

  /** `EthDevice`, reduced to the receive ring it fills and drains. */
  class EthDevice {
    /** `RECV_RING`, oldest frame first. */
    var ring: seq<seq<bv8>>

    constructor ()
      ensures ring == []
    {
      ring := [];
    }

    /**
     * `recv(buf)`: take the newest frame, copy as much of it as fits and
     * answer the count; 0 and nothing touched when the ring is empty.
     */
    method Recv(buf: array<bv8>) returns (n: nat)
      modifies this, buf
      ensures old(ring) == [] ==> n == 0 && ring == [] && buf[..] == old(buf[..])
      ensures old(ring) != [] ==>
        var frame := old(ring)[|old(ring)| - 1];
        (Some(frame), ring) == PopBack(old(ring)) &&
        n == (if |frame| < buf.Length then |frame| else buf.Length) &&
        buf[..] == CopyPrefix(old(buf[..]), frame)
    {
      if ring == [] {
        return 0;
      }
      var block := ring[|ring| - 1];
      ring := ring[..|ring| - 1];
      var minLen := if |block| < buf.Length then |block| else buf.Length;
      forall i | 0 <= i < minLen {
        buf[i] := block[i];
      }
      n := minLen;
      assert buf[..] == block[..minLen] + old(buf[..])[minLen..];
    }

    /**
     * `async_recv` with `packet` the result of the host interface's
     * `next()` (None for an error): a valid frame goes to the back of the
     * ring, any other is dropped; a frame too short to judge panics.
     */
    method AsyncRecv(packet: Option<seq<bv8>>) returns (o: Outcome)
      modifies this
      ensures packet.None? ==> o == Done && ring == old(ring)
      ensures packet.Some? && IsValidPacket(packet.value).None? ==> o.Panic?
      ensures packet.Some? && IsValidPacket(packet.value) == Some(true) ==>
        o == Done && ring == old(ring) + [packet.value]
      ensures packet.Some? && IsValidPacket(packet.value) == Some(false) ==> o == Done && ring == old(ring)
    {
      if packet.None? {
        return Done;
      }
      var buf := packet.value;
      match IsValidPacket(buf) {
        case None =>
          return Panic("index out of bounds");
        case Some(valid) =>
          if valid {
            ring := ring + [buf];
          }
          return Done;
      }
    }
  }
}
