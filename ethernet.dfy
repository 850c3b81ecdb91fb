/**
 * The TCP port bookkeeping of `EthernetDriver` (libs/net/src/ethernet.rs):
 * a bitmap with one bit per 16-bit port, set while the port is in use.
 * The smoltcp interface the driver also owns is not part of this model.
 */
module Ethernet {
  import opened Wrappers
  import opened VarBitmap

  /** `PORTS_NUM`: one bit for every `u16`. */
  const PORTS_NUM: nat := 65536
  /** The ephemeral range searched by `get_ephemeral_port`, both ends included. */
  const EPHEMERAL_FIRST: nat := 49152
  const EPHEMERAL_LAST: nat := 65535

  /** A port map: the bytes of a bitmap of `PORTS_NUM` bits. */
  predicate IsPortMap(bits: seq<bv8>)
  {
    |bits| == BytesFor(PORTS_NUM)
  }

  /** Whether a port is marked in use. */
  function Used(bits: seq<bv8>, port: nat): bool
    requires IsPortMap(bits) && port < PORTS_NUM
  {
    BitAt(bits, port)
  }

  /** `mark_port` on the map's bytes: the answer and the new map. */
  function MarkPortOf(bits: seq<bv8>, port: nat): (Option<nat>, seq<bv8>)
    requires IsPortMap(bits) && port < PORTS_NUM
  {
    if Used(bits, port) || port >= PORTS_NUM then (None, bits)
    else (Some(port), SetBitAt(bits, port, true))
  }

  /** `erase_port` as written: it answers whether the port is in use and leaves the map alone. */
  function ErasePortOf(bits: seq<bv8>, port: nat): (Option<nat>, seq<bv8>)
    requires IsPortMap(bits) && port < PORTS_NUM
  {
    (if Used(bits, port) then Some(port) else None, bits)
  }

  /** What `erase_port` is documented to do: clear the bit of a port in use. */
  function ReleasePortOf(bits: seq<bv8>, port: nat): (Option<nat>, seq<bv8>)
    requires IsPortMap(bits) && port < PORTS_NUM
  {
    if Used(bits, port) then (Some(port), SetBitAt(bits, port, false)) else (None, bits)
  }

  /** The first unused port from `p` to the end of the ephemeral range. */
  function FirstFreeFrom(bits: seq<bv8>, p: nat): Option<nat>
    requires IsPortMap(bits)
    decreases PORTS_NUM - p
  {
    if p > EPHEMERAL_LAST then None
    else if !Used(bits, p) then Some(p)
    else FirstFreeFrom(bits, p + 1)
  }

  /**
   * `mark_port` on an unused port marks it and answers the port; on a used
   * one it answers None and changes nothing. No other port changes.
   */
  lemma MarkPortMarks(bits: seq<bv8>, port: nat)
    requires IsPortMap(bits) && port < PORTS_NUM
    ensures IsPortMap(MarkPortOf(bits, port).1)
    ensures Used(bits, port) ==> MarkPortOf(bits, port) == (None, bits)
    ensures !Used(bits, port) ==> MarkPortOf(bits, port).0 == Some(port) && Used(MarkPortOf(bits, port).1, port)
    ensures forall q :: 0 <= q < PORTS_NUM && q != port ==> Used(MarkPortOf(bits, port).1, q) == Used(bits, q)
  {
    forall q | 0 <= q < PORTS_NUM
      ensures Used(SetBitAt(bits, port, true), q) == if q == port then true else Used(bits, q)
    {
      SetThenGet(bits, port, true, q);
    }
  }

  /**
   * The first free port from `p` is the smallest unused port from `p` on;
   * there is none exactly when every port from `p` to 65535 is in use.
   */
  lemma {:induction false} FirstFreeIsSmallest(bits: seq<bv8>, p: nat)
    requires IsPortMap(bits)
    ensures FirstFreeFrom(bits, p).Some? ==>
      var f := FirstFreeFrom(bits, p).value;
      p <= f <= EPHEMERAL_LAST && !Used(bits, f) && forall q :: p <= q < f ==> Used(bits, q)
    ensures FirstFreeFrom(bits, p).None? <==> forall q :: p <= q <= EPHEMERAL_LAST ==> Used(bits, q)
    decreases PORTS_NUM - p
  {
    if p <= EPHEMERAL_LAST && Used(bits, p) {
      FirstFreeIsSmallest(bits, p + 1);
    }
  }

  /** The port `get_ephemeral_port` proposes can be marked. */
  lemma EphemeralCanBeMarked(bits: seq<bv8>)
    requires IsPortMap(bits) && FirstFreeFrom(bits, EPHEMERAL_FIRST).Some?
    ensures var p := FirstFreeFrom(bits, EPHEMERAL_FIRST).value;
      p < PORTS_NUM && MarkPortOf(bits, p).0 == Some(p)
  {
    FirstFreeIsSmallest(bits, EPHEMERAL_FIRST);
  }

  /** As written, a port `erase_port` reports as erased still cannot be marked again. */
  lemma EraseKeepsPortUsed(bits: seq<bv8>, port: nat)
    requires IsPortMap(bits) && port < PORTS_NUM && Used(bits, port)
    ensures ErasePortOf(bits, port).0 == Some(port)
    ensures MarkPortOf(ErasePortOf(bits, port).1, port).0 == None
  {
  }

  /** A released port is free again, every other port is as before, and it can be marked. */
  lemma ReleaseFreesPort(bits: seq<bv8>, port: nat)
    requires IsPortMap(bits) && port < PORTS_NUM
    ensures IsPortMap(ReleasePortOf(bits, port).1)
    ensures ReleasePortOf(bits, port).0.Some? <==> Used(bits, port)
    ensures !Used(ReleasePortOf(bits, port).1, port)
    ensures forall q :: 0 <= q < PORTS_NUM && q != port ==> Used(ReleasePortOf(bits, port).1, q) == Used(bits, q)
    ensures MarkPortOf(ReleasePortOf(bits, port).1, port).0 == Some(port)
  {
    forall q | 0 <= q < PORTS_NUM
      ensures Used(SetBitAt(bits, port, false), q) == if q == port then false else Used(bits, q)
    {
      SetThenGet(bits, port, false, q);
    }
  }

  /** `EthernetDriver`, reduced to its `port_map`. */
  class EthernetDriver {
    const portMap: Bitmap

    ghost predicate Valid()
      reads this, portMap
    {
      portMap.Valid() && portMap.size == PORTS_NUM
    }

    /** The driver starts with no port in use. */
    constructor ()
      ensures Valid() && fresh(portMap)
      ensures forall p :: 0 <= p < PORTS_NUM ==> !Used(portMap.bits, p)
    {
      portMap := new Bitmap.WithSize(PORTS_NUM);
    }

    /** `mark_port(port)` for a `u16` port. */
    method MarkPort(port: nat) returns (r: Option<nat>)
      requires Valid() && port < PORTS_NUM
      modifies portMap
      ensures Valid()
      ensures (r, portMap.bits) == MarkPortOf(old(portMap.bits), port)
    {
      var used := portMap.Get(port);
      if used == Some(true) || port >= PORTS_NUM {
        return None;
      }
      var o := portMap.Set(port, true);
      r := Some(port);
    }

    /** `erase_port(port)`: answers whether the port is in use; nothing changes. */
    method ErasePort(port: nat) returns (r: Option<nat>)
      requires Valid() && port < PORTS_NUM
      ensures (r, portMap.bits) == ErasePortOf(portMap.bits, port)
      ensures r.Some? <==> Used(portMap.bits, port)
    {
      var used := portMap.Get(port);
      if used == Some(true) {
        r := Some(port);
      } else {
        r := None;
      }
    }

    /** The corrected `erase_port`: clears the bit of a port in use. */
    method ReleasePort(port: nat) returns (r: Option<nat>)
      requires Valid() && port < PORTS_NUM
      modifies portMap
      ensures Valid()
      ensures (r, portMap.bits) == ReleasePortOf(old(portMap.bits), port)
    {
      var used := portMap.Get(port);
      if used == Some(true) {
        var o := portMap.Set(port, false);
        r := Some(port);
      } else {
        r := None;
      }
    }

    /**
     * `get_ephemeral_port`: the smallest unused port in 49152..=65535, or
     * None when all are in use. The port is not marked.
     */
    method GetEphemeralPort() returns (r: Option<nat>)
      requires Valid()
      ensures r == FirstFreeFrom(portMap.bits, EPHEMERAL_FIRST)
      ensures r.Some? ==> (EPHEMERAL_FIRST <= r.value <= EPHEMERAL_LAST && !Used(portMap.bits, r.value) &&
        forall q :: EPHEMERAL_FIRST <= q < r.value ==> Used(portMap.bits, q))
      ensures r.None? <==> forall q :: EPHEMERAL_FIRST <= q <= EPHEMERAL_LAST ==> Used(portMap.bits, q)
    {
      FirstFreeIsSmallest(portMap.bits, EPHEMERAL_FIRST);
      var port := EPHEMERAL_FIRST;
      while port <= EPHEMERAL_LAST
        invariant EPHEMERAL_FIRST <= port <= EPHEMERAL_LAST + 1
        invariant FirstFreeFrom(portMap.bits, port) == FirstFreeFrom(portMap.bits, EPHEMERAL_FIRST)
        decreases EPHEMERAL_LAST + 1 - port
      {
        if portMap.Get(port) == Some(false) {
          return Some(port);
        }
        port := port + 1;
      }
      r := None;
    }
  }
}
