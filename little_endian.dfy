/**
  Unsigned little-endian integers of a fixed byte width, as OPC UA Part 6
  (section 5.2.2.2) lays out every integer on the wire. The Variant codec uses
  them for its 4-byte array length and the chunk header for its message size.
*/
module LittleEndian {
  import opened Wrappers

  /** 256 to the power `n`: the number of values a `n`-byte field can hold. */
  function Pow256(n: nat): (r: nat)
    ensures r >= 1
    ensures n >= 1 ==> r >= 256
  {
    if n == 0 then 1 else 256 * Pow256(n - 1)
  }

  const MaxUInt32: nat := 0xFFFF_FFFF

  lemma Pow256Four()
    ensures Pow256(4) == MaxUInt32 + 1
  {
    calc {
      Pow256(4);
      256 * Pow256(3);
      256 * (256 * Pow256(2));
      256 * (256 * (256 * Pow256(1)));
    }
  }

  /** The low `width` bytes of `x`, least significant first. */
  function ToLE(x: nat, width: nat): (bs: seq<bv8>)
    ensures |bs| == width
  {
    if width == 0 then [] else [(x % 256) as bv8] + ToLE(x / 256, width - 1)
  }

  /** The unsigned number whose little-endian bytes are `bs`. */
  function FromLE(bs: seq<bv8>): (x: nat)
    ensures x < Pow256(|bs|)
  {
    if bs == [] then 0
    else
      var rest := FromLE(bs[1..]);
      PlaceValueBound(bs[0] as nat, rest, Pow256(|bs| - 1));
      bs[0] as nat + 256 * rest
  }

  /** A digit below 256 plus 256 times a number below `p` stays below `256 * p`. */
  lemma PlaceValueBound(d: nat, rest: nat, p: nat)
    requires d < 256 && rest < p
    ensures d + 256 * rest < 256 * p
  {
  }

  /** Reading back the bytes written for a number that fits in `width` bytes gives the number. */
  lemma {:induction false} FromToLE(x: nat, width: nat)
    requires x < Pow256(width)
    ensures FromLE(ToLE(x, width)) == x
  {
    if width > 0 {
      var q, r := x / 256, x % 256;
      var bs := ToLE(x, width);
      assert bs[0] == r as bv8 && bs[1..] == ToLE(q, width - 1);
      ByteValue(r);
      DivBelow(x, Pow256(width - 1));
      FromToLE(q, width - 1);
      calc {
        FromLE(bs);
        bs[0] as nat + 256 * FromLE(bs[1..]);
        r + 256 * q;
      }
    }
  }

  lemma ByteValue(r: nat)
    requires r < 256
    ensures (r as bv8) as nat == r
  {
    assert (r as bv16) as nat == r;
  }

  lemma DivBelow(x: nat, p: nat)
    requires x < 256 * p
    ensures x / 256 < p
  {
  }

  /** `ec.encodeUInt32`: four bytes, least significant first. */
  function EncodeUInt32(x: nat): (bs: seq<bv8>)
    requires x <= MaxUInt32
    ensures |bs| == 4
  {
    ToLE(x, 4)
  }

  /** `ec.decodeUInt32` at cursor `p`: the value and the cursor after it, or None when fewer than four bytes remain. */
  function DecodeUInt32(s: seq<bv8>, p: nat): (r: Option<(nat, nat)>)
    ensures r.Some? <==> p + 4 <= |s|
    ensures r.Some? ==> r.value.0 <= MaxUInt32 && r.value.1 == p + 4
  {
    if p + 4 <= |s| then
      Pow256Four();
      Some((FromLE(s[p..p + 4]), p + 4))
    else None
  }

  /** Whatever surrounds them, the four bytes written for `x` read back as `x`. */
  lemma UInt32RoundTrip(x: nat, s: seq<bv8>, p: nat)
    requires x <= MaxUInt32
    requires p + 4 <= |s| && s[p..p + 4] == EncodeUInt32(x)
    ensures DecodeUInt32(s, p) == Some((x, p + 4))
  {
    Pow256Four();
    FromToLE(x, 4);
  }
}
