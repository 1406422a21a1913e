/** Numbers and ASCII text as bytes. */
module Endian {
  import opened Base
  import opened Restart

  /** The low `width` bytes of a number, least significant first. */
  function Le(n: nat, width: nat): (s: bytes)
    ensures |s| == width
  {
    if width == 0 then [] else [(n % 256) as byte] + Le(n / 256, width - 1)
  }

  function FromLe(s: bytes): nat {
    if s == [] then 0 else s[0] as nat + 256 * FromLe(s[1..])
  }

  lemma {:induction false} LeRoundTrip(n: nat, width: nat)
    requires n < Pow(256, width)
    ensures FromLe(Le(n, width)) == n
  {
    if width > 0 {
      assert Le(n, width)[1..] == Le(n / 256, width - 1);
      LeRoundTrip(n / 256, width - 1);
    }
  }

  lemma {:induction false} FromLeRoundTrip(s: bytes)
    ensures Le(FromLe(s), |s|) == s && FromLe(s) < Pow(256, |s|)
  {
    if s != [] {
      FromLeRoundTrip(s[1..]);
      assert s == [s[0]] + s[1..];
    }
  }

  lemma {:induction false} LeShorter(n: nat, width: nat)
    ensures Le(n, width + 1)[..width] == Le(n, width)
  {
    if width > 0 {
      LeShorter(n / 256, width - 1);
    }
  }

  lemma Widths()
    ensures Pow(256, 4) == U32_MAX + 1 && Pow(256, 8) == U64_MAX + 1 && MAX_DURATION < Pow(256, 16)
  {
    assert Pow(256, 4) == 0x1_0000_0000 by {
      assert Pow(256, 2) == 256 * Pow(256, 1);
    }
    PowAdd(256, 4, 4);
    PowAdd(256, 8, 8);
  }

  function U32(n: u32): bytes {
    Le(n, 4)
  }

  function U64(n: u64): bytes {
    Le(n, 8)
  }

  /** The bytes of an ASCII string. */
  function Ascii(s: string): (b: bytes)
    ensures |b| == |s| && forall i :: 0 <= i < |s| ==> b[i] as int == s[i] as int % 256
  {
    seq(|s|, i requires 0 <= i < |s| => (s[i] as int % 256) as byte)
  }
}
