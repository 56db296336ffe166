/** Byte arrays as the editors use them: Uint8Array element stores, `set`,
 *  `slice`, and DataView's fixed-width integer writes in either byte order. */
module JsBytes {
  import opened JsNumber

  newtype byte = x: int | 0 <= x < 256

  /** A store into a Uint8Array element (ToUint8): the value modulo 256, NaN as 0. */
  function ToUint8(n: Num): (b: byte)
    ensures (IntegerOrZero(n) - b as int) % 256 == 0
    ensures n.Int? && 0 <= n.i < 256 ==> b as int == n.i
  {
    (IntegerOrZero(n) % 256) as byte
  }

  /** A freshly allocated Uint8Array or ArrayBuffer of length n. */
  function Zeros(n: nat): (r: seq<byte>)
    ensures |r| == n
    ensures forall i | 0 <= i < n :: r[i] == 0
  {
    seq(n, _ => 0 as byte)
  }

  /** `target.set(source, offset)`. JavaScript throws a RangeError when source
   *  does not fit, so callers establish that it fits. */
  function Overlay(target: seq<byte>, offset: nat, source: seq<byte>): (r: seq<byte>)
    requires offset + |source| <= |target|
    ensures |r| == |target|
    ensures forall i | 0 <= i < |target| ::
              r[i] == if offset <= i < offset + |source| then source[i - offset] else target[i]
  {
    target[..offset] + source + target[offset + |source|..]
  }

  /** The index a `slice` bound resolves to: a negative bound counts back from
   *  the end, and both ends are clamped to [0, len]. */
  function SliceIndex(k: int, len: nat): (r: nat)
    ensures r <= len
    ensures 0 <= k <= len ==> r == k
    ensures k < 0 ==> r == if len + k < 0 then 0 else len + k
    ensures k > len ==> r == len
  {
    if k < 0 then (if len + k < 0 then 0 else len + k)
    else if k > len then len
    else k
  }

  /** `s.slice(start, end)` on an array or a string. */
  function Slice<T>(s: seq<T>, start: int, end: int): (r: seq<T>)
    ensures 0 <= start <= end <= |s| ==> r == s[start..end]
    ensures |r| <= |s|
  {
    var from := SliceIndex(start, |s|);
    var to := SliceIndex(end, |s|);
    if from < to then s[from..to] else []
  }

  /** `s.slice(start)`. */
  function SliceFrom<T>(s: seq<T>, start: int): (r: seq<T>)
    ensures 0 <= start <= |s| ==> r == s[start..]
  {
    Slice(s, start, |s|)
  }

  /** Cutting at any index and joining the two slices gives the sequence back. */
  lemma SliceSplit<T>(s: seq<T>, k: int)
    ensures Slice(s, 0, k) + SliceFrom(s, k) == s
  {
    var m := SliceIndex(k, |s|);
    assert Slice(s, 0, k) == s[..m];
    assert SliceFrom(s, k) == s[m..];
  }

  function Pow256(k: nat): (r: nat)
    ensures r >= 1
  {
    if k == 0 then 1 else 256 * Pow256(k - 1)
  }

  function Reverse<T>(s: seq<T>): (r: seq<T>)
    ensures |r| == |s|
    ensures forall i | 0 <= i < |s| :: r[i] == s[|s| - 1 - i]
  {
    if s == [] then [] else Reverse(s[1..]) + [s[0]]
  }

  /** The width low-order bytes of v (two's complement for negative v), least
   *  significant first. */
  function LittleEndianBytes(v: int, width: nat): (r: seq<byte>)
    ensures |r| == width
    decreases width
  {
    if width == 0 then [] else [(v % 256) as byte] + LittleEndianBytes(v / 256, width - 1)
  }

  /** The unsigned integer a byte sequence encodes, least significant byte first. */
  function LittleEndianValue(bs: seq<byte>): (r: nat)
    ensures r < Pow256(|bs|)
  {
    if bs == [] then 0 else bs[0] as nat + 256 * LittleEndianValue(bs[1..])
  }

  /** The unsigned integer a byte sequence encodes in the given byte order. */
  function UnsignedValue(bs: seq<byte>, littleEndian: bool): (r: nat)
    ensures r < Pow256(|bs|)
  {
    if littleEndian then LittleEndianValue(bs) else LittleEndianValue(Reverse(bs))
  }

  /** DataView `setUint16/setUint32/setInt8/setInt16/setInt32(0, n, littleEndian)`
   *  applied to a zeroed buffer of exactly width bytes. */
  function IntBytes(n: Num, width: nat, littleEndian: bool): (r: seq<byte>)
    ensures |r| == width
    ensures UnsignedValue(r, littleEndian) == IntegerOrZero(n) % Pow256(width)
  {
    var le := LittleEndianBytes(IntegerOrZero(n), width);
    LittleEndianRoundTrip(IntegerOrZero(n), width);
    if littleEndian then le
    else
      ReverseInvolutive(le);
      Reverse(le)
  }

  lemma ReverseInvolutive<T>(s: seq<T>)
    ensures Reverse(Reverse(s)) == s
  {
  }

  /** Euclidean division is unique. */
  lemma DivModUnique(v: int, d: int, q: int, r: int)
    requires d > 0 && v == d * q + r && 0 <= r < d
    ensures v / d == q && v % d == r
  {
    var q', r' := v / d, v % d;
    assert d * (q - q') == r' - r;
    if q > q' {
      MulAtLeast(d, q - q');
    } else if q < q' {
      MulAtLeast(d, q' - q);
    }
  }

  lemma MulAtLeast(d: int, k: int)
    requires d > 0 && k >= 1
    ensures d * k >= d
  {
  }

  /** Taking digits base 256 one at a time agrees with one reduction modulo 256^(w+1). */
  lemma ModPow256Step(v: int, w: nat)
    ensures v % Pow256(w + 1) == v % 256 + 256 * ((v / 256) % Pow256(w))
  {
    var p := Pow256(w);
    var q, r0 := v / 256, v % 256;
    var q2, r1 := q / p, q % p;
    assert v == 256 * q + r0;
    assert q == p * q2 + r1;
    assert v == (256 * p) * q2 + (256 * r1 + r0);
    DivModUnique(v, 256 * p, q2, 256 * r1 + r0);
  }

  lemma {:induction false} LittleEndianRoundTrip(v: int, width: nat)
    ensures LittleEndianValue(LittleEndianBytes(v, width)) == v % Pow256(width)
    decreases width
  {
    if width > 0 {
      LittleEndianRoundTrip(v / 256, width - 1);
      var bs := LittleEndianBytes(v, width);
      assert bs[1..] == LittleEndianBytes(v / 256, width - 1);
      ModPow256Step(v, width - 1);
    }
  }
}
