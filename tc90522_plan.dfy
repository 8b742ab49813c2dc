/**
 * Byte decoding and channel-number resolution of the TC90522 demodulator:
 * `tc90522_n2int` and the satellite (`fno2kHz`/`s_kHz`) and terrestrial
 * (`fno2Hz`/`t_Hz`) frequency plans.
 */
module Tc90522Plan {
  import opened Wrappers

  // ---------------------------------------------------------------------
  // Network byte order
  // ---------------------------------------------------------------------

  /** Value of a byte string read most significant byte first. */
  function BigEndian(d: seq<bv8>): nat
  {
    if d == [] then 0 else BigEndian(d[..|d| - 1]) * 256 + d[|d| - 1] as nat
  }

  function Pow256(k: nat): (p: nat)
    ensures p >= 1
  {
    if k == 0 then 1 else 256 * Pow256(k - 1)
  }

  /** Appending a byte shifts the value up by one byte. */
  lemma AppendByte(d: seq<bv8>, b: bv8)
    ensures BigEndian(d + [b]) == BigEndian(d) * 256 + b as nat
  {
    assert (d + [b])[..|d|] == d;
  }

  /** An `n`-byte string holds less than 256^n. */
  lemma {:induction false} BigEndianBound(d: seq<bv8>)
    ensures BigEndian(d) < Pow256(|d|)
  {
    if d != [] {
      BigEndianBound(d[..|d| - 1]);
      assert BigEndian(d[..|d| - 1]) + 1 <= Pow256(|d| - 1);
      assert (BigEndian(d[..|d| - 1]) + 1) * 256 <= Pow256(|d| - 1) * 256;
    }
  }

  lemma ExampleBigEndian()
    ensures BigEndian([0x12, 0x34]) == 0x1234
    ensures BigEndian([]) == 0
  {
    assert [0x12, 0x34][..1] == [0x12 as bv8];
    assert [0x12 as bv8][..0] == [];
  }

  /** Reducing before the shift gives the same 32-bit result, and the shifted value has an empty low byte. */
  lemma ShiftInByte(x: nat, b: bv8)
    ensures x % TWO_32 * 256 % TWO_32 % 256 == 0
    ensures x % TWO_32 * 256 % TWO_32 + b as nat < TWO_32
    ensures x % TWO_32 * 256 % TWO_32 + b as nat == (x * 256 + b as nat) % TWO_32
  {
    var q := x / TWO_32;
    var r := x % TWO_32;
    var k := r * 256 / TWO_32;
    var s := r * 256 % TWO_32;
    assert r * 256 == k * TWO_32 + s;
    assert s == 256 * (r - k * 0x100_0000);
    assert s <= TWO_32 - 256;
    assert x * 256 + b as nat == (q * 256 + k) * TWO_32 + (s + b as nat);
    ModUnique(x * 256 + b as nat, q * 256 + k, s + b as nat);
  }

  /** Euclidean division by 2^32 has a unique remainder. */
  lemma ModUnique(m: int, q: int, r: int)
    requires 0 <= r < TWO_32 && m == q * TWO_32 + r
    ensures m % TWO_32 == r
  {
  }

  /**
   * `tc90522_n2int`: the first `n` bytes of `data` as a big-endian integer,
   * accumulated in a `u32`, so only the last four bytes survive.
   */
  method N2Int(data: seq<bv8>, n: nat) returns (v: u32)
    requires n <= |data|
    ensures v == BigEndian(data[..n]) % TWO_32
    ensures n <= 4 ==> v == BigEndian(data[..n])
  {
    var val: u32 := 0;
    var i := 0;
    while i < n
      invariant 0 <= i <= n
      invariant val == BigEndian(data[..i]) % TWO_32
    {
      // `val <<= 8; val |= data[i];`: the shift leaves the low byte clear,
      // so the OR adds the byte.
      ShiftInByte(BigEndian(data[..i]), data[i]);
      AppendByte(data[..i], data[i]);
      assert data[..i + 1] == data[..i] + [data[i]];
      val := val * 256 % TWO_32 + data[i] as int;
      i := i + 1;
    }
    if n <= 4 {
      BigEndianBound(data[..n]);
      assert Pow256(n) <= Pow256(4) by {
        if n < 4 { Pow256Monotone(n, 4); }
      }
      assert Pow256(4) == TWO_32;
    }
    v := val;
  }

  lemma {:induction false} Pow256Monotone(i: nat, j: nat)
    requires i <= j
    ensures Pow256(i) <= Pow256(j)
    decreases j
  {
    if i < j {
      Pow256Monotone(i, j - 1);
    }
  }

  // ---------------------------------------------------------------------
  // Satellite plan (BS / CS110), in kHz of the first IF
  // ---------------------------------------------------------------------

  const SAT_MIN_KHZ: nat := 1049480
  const SAT_MAX_KHZ: nat := 3224000

  /**
   * `fno2kHz`: IF of transponder number `fno`. BS transponders 0..22 are spaced
   * 38.36 MHz apart, CS110 transponders from 23 on 40 MHz apart; all arithmetic
   * is `u32`, so numbers far past the table wrap around.
   */
  function FnoToKHz(fno: u32): (f: u32)
    ensures fno <= 49 ==> SAT_MIN_KHZ <= f <= 2113000
  {
    if fno < 12 then 1049480 + 38360 * fno
    else if fno < 23 then 1068660 + 38360 * (fno - 12)
    else if fno < 35 then 1613000 + 40000 * (fno - 23)
    else (1553000 + 40000 * (fno - 35)) % TWO_32
  }

  /**
   * `s_kHz`: a request above the band is clamped to transponder 14, one inside
   * the band is kept, 51.. below the band means transponder 4, and 1..50 are
   * channel numbers (BS 1-25, CS 26-50), resolved through `fno2kHz(f - 1)`.
   */
  function SatelliteKHz(f: u32): (r: u32)
    ensures f >= 1 ==> SAT_MIN_KHZ <= r <= SAT_MAX_KHZ
    ensures SAT_MIN_KHZ <= f <= SAT_MAX_KHZ ==> r == f
  {
    if f > SAT_MAX_KHZ then FnoToKHz(14)
    else if f >= SAT_MIN_KHZ then f
    else if f > 50 then FnoToKHz(4)
    else FnoToKHz((f - 1) % TWO_32)
  }

  /** Resolving a resolved request changes nothing. */
  lemma SatelliteIdempotent(f: u32)
    requires f >= 1
    ensures SatelliteKHz(SatelliteKHz(f)) == SatelliteKHz(f)
  {
  }

  /** Fixed fallbacks: above the band transponder 14, below it (from 51) transponder 4. */
  lemma SatelliteFallbacks(f: u32)
    ensures f > SAT_MAX_KHZ ==> SatelliteKHz(f) == 1145380
    ensures 51 <= f < SAT_MIN_KHZ ==> SatelliteKHz(f) == 1202920
  {
  }

  /** Request 0 is not a channel number: `0 - 1` wraps to 0xFFFFFFFF and gives 113000 kHz. */
  lemma SatelliteZeroWraps()
    ensures SatelliteKHz(0) == 113000
    ensures SatelliteKHz(SatelliteKHz(0)) == 1202920
  {
  }

  // ---------------------------------------------------------------------
  // Terrestrial plan (UHF / CATV), in Hz
  // ---------------------------------------------------------------------

  const TER_MIN_HZ: nat := 90000000

  /** The centre-frequency offset of 1/7 MHz every ISDB-T channel carries. */
  const CENTRE_OFFSET_HZ: nat := 142857

  /**
   * `fno2Hz`: centre frequency of channel index `fno` in 6 MHz steps from
   * 93 MHz, with the 2 MHz gaps of channels 12..16 and 63..112; indices past
   * 112 fall back to 557 MHz.
   */
  function FnoToHz(fno: u32): (f: u32)
    ensures f % 1000000 == CENTRE_OFFSET_HZ
    ensures 93142857 <= f <= 767142857
  {
    (if fno > 112 then 557 else 93 + 6 * fno + (if fno < 12 then 0 else if fno < 17 then 2 else if fno < 63 then 0 else 2))
      * 1000000 + 142857
  }

  /**
   * `t_Hz`: a request of at least 90 MHz is a frequency; 128..255 are channel
   * indices (IO#), 64..127 CATV channels (C13-C62), 13..62 UHF channels, 1..12
   * VHF channels; everything else falls back to UHF channel 27 (557 MHz).
   */
  function TerrestrialHz(f: u32): (r: u32)
    ensures r >= TER_MIN_HZ
    ensures f >= TER_MIN_HZ ==> r == f
  {
    if f >= TER_MIN_HZ then f
    else if f > 255 then FnoToHz(77)
    else if f > 127 then FnoToHz(f - 128)
    else if f > 63 then
      var catv := f - 64;
      if catv > 22 then FnoToHz(catv - 1)
      else if catv > 12 then FnoToHz(catv - 10)
      else FnoToHz(77)
    else if f > 62 then FnoToHz(77)
    else if f > 12 then FnoToHz(f + 50)
    else if f > 3 then FnoToHz(f + 9)
    else if f != 0 then FnoToHz(f - 1)
    else FnoToHz(77)
  }

  lemma TerrestrialIdempotent(f: u32)
    ensures TerrestrialHz(TerrestrialHz(f)) == TerrestrialHz(f)
  {
  }

  /** Inputs that are neither a frequency nor a channel number all give 557142857 Hz. */
  lemma TerrestrialFallback(f: u32)
    requires f == 0 || f == 63 || 64 <= f <= 76 || 256 <= f < TER_MIN_HZ
    ensures TerrestrialHz(f) == 557142857
  {
  }

  /** UHF channel `ch` (13..62) is tuned at 473 + 6 (ch - 13) MHz plus the 1/7 MHz offset. */
  lemma UhfChannel(ch: u32)
    requires 13 <= ch <= 62
    ensures TerrestrialHz(ch) == (473 + 6 * (ch - 13)) * 1000000 + CENTRE_OFFSET_HZ
  {
  }
}
