/**
 * The growable bitmap of libs/var_bitmap: `size` bits stored most
 * significant bit first in a vector of bytes, bit `i` being bit `7 - i % 8`
 * of byte `i / 8`.
 */
module VarBitmap {
  import opened Wrappers

  /** Bit `offset` of a byte, counted from the most significant end. */
  function BitOf(byte: bv8, offset: nat): bool
    requires offset < 8
  {
    (byte >> (7 - offset)) & 1 == 1
  }

  /**
   * The bit flip of `set`: the current bit is xor-ed with the wanted one, and
   * the difference is xor-ed into the byte at the bit's place.
   */
  function SetBitOf(byte: bv8, offset: nat, value: bool): (b: bv8)
    requires offset < 8
    ensures BitOf(b, offset) == value
    ensures forall o :: 0 <= o < 8 && o != offset ==> BitOf(b, o) == BitOf(byte, o)
  {
    var curval := (byte >> (7 - offset)) & 1;
    var mask := if value then 1 ^ curval else 0 ^ curval;
    byte ^ (mask << (7 - offset))
  }

  /** Number of bytes `with_size(n)` allocates: n/8 rounded up. */
  function BytesFor(n: nat): (k: nat)
    ensures k * 8 >= n && (k == 0 || (k - 1) * 8 < n)
  {
    if n == 0 then 0 else (n - 1) / 8 + 1
  }

  /** Bit `idx` of a byte vector. */
  function BitAt(bits: seq<bv8>, idx: nat): bool
    requires idx / 8 < |bits|
  {
    BitOf(bits[idx / 8], idx % 8)
  }

  /** The byte vector after bit `idx` is set to `value`. */
  function SetBitAt(bits: seq<bv8>, idx: nat, value: bool): (r: seq<bv8>)
    requires idx / 8 < |bits|
    ensures |r| == |bits|
  {
    bits[idx / 8 := SetBitOf(bits[idx / 8], idx % 8, value)]
  }

  /** Setting a bit makes it read back as set, and no other bit changes. */
  lemma SetThenGet(bits: seq<bv8>, idx: nat, value: bool, j: nat)
    requires idx / 8 < |bits| && j / 8 < |bits|
    ensures BitAt(SetBitAt(bits, idx, value), j) == if j == idx then value else BitAt(bits, j)
  {
    if j / 8 == idx / 8 && j != idx {
      assert j % 8 != idx % 8;
    }
  }

  /** Every bit of zero bytes reads false. */
  lemma ZeroBits(n: nat, idx: nat)
    requires idx < n
    ensures idx / 8 < BytesFor(n) && !BitAt(seq(BytesFor(n), _ => 0 as bv8), idx)
  {
    var z: bv8 := 0;
    assert forall o :: 0 <= o < 8 ==> !BitOf(z, o);
  }

  /** `Bitmap`. */
  class Bitmap {
    var size: nat
    var bits: seq<bv8>

    /** There are as many bytes as the bits need, and no more. */
    ghost predicate Valid()
      reads this
    {
      |bits| == BytesFor(size)
    }

    /** `with_size(n)`: `n` bits, all clear. */
    constructor WithSize(n: nat)
      ensures Valid() && size == n
      ensures bits == seq(BytesFor(n), _ => 0)
      ensures forall i :: 0 <= i < n ==> Get(i) == Some(false)
    {
      var bitsSize := if n == 0 then 0 else (n - 1) / 8 + 1;
      var b: seq<bv8> := [];
      for k := 0 to bitsSize
        invariant b == seq(k, _ => 0)
      {
        b := b + [0];
      }
      size, bits := n, b;
      new;
      forall i | 0 <= i < n
        ensures Get(i) == Some(false)
      {
        ZeroBits(n, i);
      }
    }

    /** `new()`: the empty bitmap. */
    constructor ()
      ensures Valid() && size == 0 && bits == []
    {
      size, bits := 0, [];
    }

    /** `size()`. */
    function Size(): (n: nat)
      reads this
      ensures n == size
    {
      size
    }

    /** `get(idx)`: None stands for the panic "Out of bound error". */
    function Get(idx: nat): (r: Option<bool>)
      reads this
      requires Valid()
      ensures r.None? <==> idx >= size
      ensures r.Some? ==> r.value == BitAt(bits, idx)
    {
      if idx >= size then None
      else
        var byteIdx := idx / 8;
        var offset := idx % 8;
        var byte := bits[byteIdx];
        Some((byte >> (7 - offset)) & 1 == 1)
    }

    /**
     * `set(idx, value)`: afterwards bit `idx` reads `value` and every other
     * bit reads as before; out of bounds it panics.
     */
    method Set(idx: nat, value: bool) returns (o: Outcome)
      requires Valid()
      modifies this
      ensures Valid() && size == old(size)
      ensures idx >= size ==> o == Panic("Out of bound error") && bits == old(bits)
      ensures idx < size ==> o == Done && bits == SetBitAt(old(bits), idx, value)
      ensures idx < size ==> Get(idx) == Some(value)
      ensures forall j: nat :: j != idx ==> Get(j) == old(Get(j))
    {
      if idx >= size {
        return Panic("Out of bound error");
      }
      var byteIdx := idx / 8;
      var offset := idx % 8;
      var byte := bits[byteIdx];
      byte := SetBitOf(byte, offset, value);
      ghost var b0 := bits;
      bits := bits[byteIdx := byte];
      o := Done;
      forall j: nat | j < size
        ensures BitAt(bits, j) == if j == idx then value else BitAt(b0, j)
      {
        SetThenGet(b0, idx, value, j);
      }
    }

    /**
     * `push(value)`: one more bit, reading `value`; a byte is added exactly
     * when the old size was a multiple of 8.
     */
    method Push(value: bool)
      requires Valid()
      modifies this
      ensures Valid() && size == old(size) + 1
      ensures |bits| == |old(bits)| + (if old(size) % 8 == 0 then 1 else 0)
      ensures Get(old(size)) == Some(value)
      ensures forall j: nat :: j < old(size) ==> Get(j) == old(Get(j))
    {
      ghost var b0 := bits;
      if size % 8 == 0 {
        bits := bits + [0];
      }
      var idx := size;
      size := size + 1;
      forall j: nat | j < idx
        ensures BitAt(bits, j) == BitAt(b0, j)
      {
      }
      var o := Set(idx, value);
    }
  }
}
