/**
 * Register access of the TDA2014x ISDB-S tuner: the bit-field read `tda2014x_r8`
 * and the read-modify-write field writer `tda2014x_w16`, over a register file of
 * 256 byte-wide registers reached through the demodulator's I2C gate.
 */
module Tda2014xRegs {
  import opened Wrappers

  /** What `tda2014x_r` returns: the register byte, or -EREMOTEIO when the transfer fails. */
  type Reply = r: int | r == -EREMOTEIO || 0 <= r < 256

  /** C conversion of an `int` to `u8` (modulo 256). */
  function ToU8(x: int): bv8
  {
    (x % 256) as bv8
  }

  function LowByte(x: bv16): bv8
  {
    (x & 0xFF) as bv8
  }

  function HighByte(x: bv16): bv8
  {
    (x >> 8) as bv8
  }

  /** `u8 mask` of `tda2014x_r8`: `nbits` ones starting at `startBit`, truncated to a byte. */
  function Mask8(startBit: bv8, nbits: bv8): (m: bv8)
    requires startBit < 8
    ensures nbits <= 7 ==> m & ((1 << startBit) - 1) == 0
    ensures nbits <= 8 - startBit ==> m >> startBit == (1 << nbits) - 1
  {
    if nbits > 7 then 0xFF else ((1 << nbits) - 1) << startBit
  }

  /**
   * Value of the field (`startBit`, `nbits`) of a register byte. A field of
   * `nbits` bits holds less than 2^nbits, and shifting it back gives the masked byte.
   */
  function Field(b: bv8, startBit: bv8, nbits: bv8): (r: bv8)
    requires startBit < 8
    ensures nbits <= 7 ==> r < 1 << nbits
    ensures nbits <= 7 && nbits <= 8 - startBit ==> r << startBit == b & Mask8(startBit, nbits)
  {
    (b & Mask8(startBit, nbits)) >> startBit
  }

  /**
   * How both helpers take a read result: they store it in a `u8` and then test
   * it with `< 0`, a test that can never succeed. The register file below
   * therefore lets reads always deliver a byte.
   */
  function StoredReplyAsWritten(reply: Reply): (r: Option<bv8>)
    ensures r.Some?
  {
    var stored := ToU8(reply);
    if (stored as int) < 0 then None else Some(stored)
  }

  /** A failed read is taken for the byte 0x87 and reported as a success. */
  lemma FailedReadAccepted()
    ensures StoredReplyAsWritten(-EREMOTEIO) == Some(0x87)
  {
  }

  /** `u16 mask` of `tda2014x_w16`. */
  function Mask16(startBit: bv8, nbits: bv8): (m: bv16)
    requires startBit < 16
    ensures nbits <= 15 ==> m & ((1 << startBit) - 1) == 0
    ensures nbits <= 16 - startBit ==> m >> startBit == (1 << nbits) - 1
  {
    if nbits > 15 then 0xFFFF else ((1 << nbits) - 1) << startBit
  }

  /** `val` of `tda2014x_w16`: the low `nbits` bits of the data moved to the field, bits outside it cleared. */
  function Positioned(startBit: bv8, nbits: bv8, wdat: bv16): (r: bv16)
    requires startBit < 16
    ensures r & !Mask16(startBit, nbits) == 0
    ensures nbits <= 16 - startBit ==> r >> startBit == wdat & ((1 << nbits) - 1)
  {
    Mask16(startBit, nbits) & (wdat << startBit)
  }

  /** Number of bytes written: 0 means 1, anything above 2 means 2. */
  function ByteCount(nbytes: nat): nat
  {
    if nbytes == 0 then 1 else if nbytes > 2 then 2 else nbytes
  }

  /**
   * Byte sent at step `i` (register `slvadr + i`) of an `n`-byte write: byte
   * `n - 1 - i` of the little-endian `val`, merged for read-modify-write with the
   * byte read back under the complement of byte `i` of the mask.
   */
  function StepByte(val: bv16, mask: bv16, n: nat, i: nat, rmw: bool, readBack: bv8): (r: bv8)
    requires 1 <= n <= 2 && i < n
    ensures r & MaskByte(mask, i) == DataByte(val, n, i) & MaskByte(mask, i)
    ensures !rmw ==> r == DataByte(val, n, i)
  {
    if rmw then MergeReadBack(DataByte(val, n, i), mask, i, readBack) else DataByte(val, n, i)
  }

  /** The byte of `val` sent at step `i`: byte `n - 1 - i` of it, so the high byte goes first. */
  function DataByte(val: bv16, n: nat, i: nat): bv8
  {
    if n == 2 && i == 0 then HighByte(val) else LowByte(val)
  }

  /** Byte `i` of a 16-bit mask, counting from the low end. */
  function MaskByte(mask: bv16, i: nat): bv8
  {
    if i == 0 then LowByte(mask) else HighByte(mask)
  }

  /** Bits of the byte read back that lie outside byte `i` of the mask are kept:
      inside the mask the byte is the data byte, outside it data OR read-back. */
  function MergeReadBack(own: bv8, mask: bv16, i: nat, readBack: bv8): (r: bv8)
    requires i < 2
    ensures r & MaskByte(mask, i) == own & MaskByte(mask, i)
    ensures r & !MaskByte(mask, i) == (own | readBack) & !MaskByte(mask, i)
  {
    OrUnderMask(own, MaskByte(mask, i), readBack);
    own | (!MaskByte(mask, i) & readBack)
  }

  lemma OrUnderMask(own: bv8, mb: bv8, readBack: bv8)
    ensures (own | (!mb & readBack)) & mb == own & mb
    ensures (own | (!mb & readBack)) & !mb == (own | readBack) & !mb
  {
  }

  /** Register address reached at step `i`: the `u8` slot of `slvadr + i`. */
  function Slot(slvadr: nat, i: nat): nat
  {
    (slvadr + i) % 256
  }

  /** Two consecutive steps reach different registers. */
  lemma SlotsDistinct(slvadr: nat, i: nat)
    ensures Slot(slvadr, i) != Slot(slvadr, i + 1)
  {
  }

  /** A register write: address and byte. */
  datatype Store = Store(adr: nat, b: bv8)

  /** The writes `tda2014x_w16` performs when every transfer succeeds. */
  function Plan(regs: seq<bv8>, slvadr: nat, startBit: bv8, nbits: bv8, nbytes: nat,
                rmw: bool, access: bv8, wdat: bv16): (r: seq<Store>)
    requires |regs| == 256 && startBit < 16
    ensures |r| == if access & 2 == 0 then 0 else ByteCount(nbytes)
    ensures forall k :: 0 <= k < |r| ==> r[k].adr == Slot(slvadr, k) < 256
  {
    Stores(regs, slvadr, ByteCount(nbytes), rmw, access, Positioned(startBit, nbits, wdat), Mask16(startBit, nbits))
  }

  /** The writes of the byte loop, for `n` bytes of `val` under `mask`. */
  function Stores(regs: seq<bv8>, slvadr: nat, n: nat, rmw: bool, access: bv8, val: bv16, mask: bv16): (r: seq<Store>)
    requires |regs| == 256 && 1 <= n <= 2
    ensures |r| == if access & 2 == 0 then 0 else n
    ensures forall k :: 0 <= k < |r| ==> r[k].adr == Slot(slvadr, k) < 256
  {
    if access & 2 == 0 then []
    else if n == 1 then [Store(Slot(slvadr, 0), StepByte(val, mask, 1, 0, rmw, regs[Slot(slvadr, 0)]))]
    else [Store(Slot(slvadr, 0), StepByte(val, mask, 2, 0, rmw, regs[Slot(slvadr, 0)])),
          Store(Slot(slvadr, 1), StepByte(val, mask, 2, 1, rmw, regs[Slot(slvadr, 1)]))]
  }

  lemma StoresAt(regs: seq<bv8>, slvadr: nat, n: nat, rmw: bool, access: bv8, val: bv16, mask: bv16, i: nat)
    requires |regs| == 256 && 1 <= n <= 2 && access & 2 != 0 && i < n
    ensures var stores := Stores(regs, slvadr, n, rmw, access, val, mask);
            && |stores| == n
            && stores[i] == Store(Slot(slvadr, i), StepByte(val, mask, n, i, rmw, regs[Slot(slvadr, i)]))
  {
  }

  /** The register file after a sequence of writes: the last write to a register wins. */
  function Apply(regs: seq<bv8>, stores: seq<Store>): (r: seq<bv8>)
    requires forall k :: 0 <= k < |stores| ==> stores[k].adr < |regs|
    ensures |r| == |regs|
    ensures stores != [] ==> r[stores[|stores| - 1].adr] == stores[|stores| - 1].b
    decreases |stores|
  {
    if stores == [] then regs
    else Apply(regs[stores[0].adr := stores[0].b], stores[1..])
  }

  /** A register that no write addresses keeps its value. */
  lemma {:induction false} ApplyUntouched(regs: seq<bv8>, stores: seq<Store>, a: nat)
    requires forall k :: 0 <= k < |stores| ==> stores[k].adr < |regs|
    requires a < |regs| && forall k :: 0 <= k < |stores| ==> stores[k].adr != a
    ensures Apply(regs, stores)[a] == regs[a]
    decreases |stores|
  {
    if stores != [] {
      var rest := stores[1..];
      assert forall k :: 0 <= k < |rest| ==> rest[k] == stores[k + 1];
      ApplyUntouched(regs[stores[0].adr := stores[0].b], rest, a);
    }
  }

  /** The register file holds the first `k` writes of the plan for some `k` short of all of them. */
  ghost predicate StoppedPartway(before: seq<bv8>, after: seq<bv8>, stores: seq<Store>)
    requires forall k :: 0 <= k < |stores| ==> stores[k].adr < |before|
  {
    exists k :: 0 <= k < |stores| && after == Apply(before, stores[..k])
  }

  lemma StoppedAt(before: seq<bv8>, stores: seq<Store>, k: nat)
    requires forall j :: 0 <= j < |stores| ==> stores[j].adr < |before|
    requires k < |stores|
    ensures StoppedPartway(before, Apply(before, stores[..k]), stores)
  {
  }

  lemma {:induction false} ApplyStep(regs: seq<bv8>, stores: seq<Store>, k: nat)
    requires forall j :: 0 <= j < |stores| ==> stores[j].adr < |regs|
    requires k < |stores|
    ensures Apply(regs, stores[..k + 1]) == Apply(regs, stores[..k])[stores[k].adr := stores[k].b]
    decreases k
  {
    if k == 0 {
      assert stores[..1] == [stores[0]];
      assert stores[..1][1..] == [];
    } else {
      var first := regs[stores[0].adr := stores[0].b];
      assert stores[..k + 1][1..] == stores[1..][..k];
      assert stores[..k][1..] == stores[1..][..k - 1];
      ApplyStep(first, stores[1..], k - 1);
    }
  }

  /**
   * The byte a single-byte read-modify-write stores: the data moved into the
   * field, and the bits of the old byte outside it.
   */
  function Merged(old_: bv8, startBit: bv8, nbits: bv8, wdat: bv16): (r: bv8)
    requires startBit < 8
    ensures r & !Mask8(startBit, nbits) == old_ & !Mask8(startBit, nbits)
  {
    ((LowByte(wdat) << startBit) & Mask8(startBit, nbits)) | (!Mask8(startBit, nbits) & old_)
  }

  /** Reading the field of the merged byte gives the data truncated to the field width. */
  lemma MergedReadsBack(old_: bv8, startBit: bv8, nbits: bv8, wdat: bv16)
    requires startBit < 8 && nbits <= 8 - startBit
    ensures Field(Merged(old_, startBit, nbits, wdat), startBit, nbits) == LowByte(wdat) & Mask8(0, nbits)
  {
  }

  /** A single-byte read-modify-write stores `Merged` at `slvadr` and touches no other register. */
  lemma FieldWriteStoresMerged(regs: seq<bv8>, slvadr: nat, startBit: bv8, nbits: bv8, nbytes: nat, wdat: bv16)
    requires |regs| == 256 && startBit < 8 && nbits <= 8 - startBit && nbytes <= 1
    ensures var a := Slot(slvadr, 0);
            Apply(regs, Plan(regs, slvadr, startBit, nbits, nbytes, true, 6, wdat))
              == regs[a := Merged(regs[a], startBit, nbits, wdat)]
  {
    var a := Slot(slvadr, 0);
    OneStore(regs, slvadr, true, 6, Positioned(startBit, nbits, wdat), Mask16(startBit, nbits));
    RmwByte(regs[a], startBit, nbits, wdat);
  }

  /** A one-byte write stores its step byte at `slvadr` and nothing else. */
  lemma OneStore(regs: seq<bv8>, slvadr: nat, rmw: bool, access: bv8, val: bv16, mask: bv16)
    requires |regs| == 256 && access & 2 != 0
    ensures var a := Slot(slvadr, 0);
            Apply(regs, Stores(regs, slvadr, 1, rmw, access, val, mask))
              == regs[a := StepByte(val, mask, 1, 0, rmw, regs[a])]
  {
    var stores := Stores(regs, slvadr, 1, rmw, access, val, mask);
    assert stores[1..] == [];
  }

  /** The byte a single-byte read-modify-write sends: the data in the field, the old bits elsewhere. */
  lemma RmwByte(old_: bv8, startBit: bv8, nbits: bv8, wdat: bv16)
    requires startBit < 8 && nbits <= 8 - startBit
    ensures StepByte(Positioned(startBit, nbits, wdat), Mask16(startBit, nbits), 1, 0, true, old_)
         == Merged(old_, startBit, nbits, wdat)
  {
    var own := LowByte(Positioned(startBit, nbits, wdat));
    MergeLowByte(own, startBit, nbits, old_);
    LowBytePositioned(startBit, nbits, wdat);
  }

  lemma LowBytePositioned(startBit: bv8, nbits: bv8, wdat: bv16)
    requires startBit < 8 && nbits <= 8 - startBit
    ensures LowByte(Positioned(startBit, nbits, wdat)) == (LowByte(wdat) << startBit) & Mask8(startBit, nbits)
  {
    LowByteAnd(Mask16(startBit, nbits), wdat << startBit);
    LowMask(startBit, nbits);
    LowShift(startBit, wdat);
  }

  lemma LowByteAnd(a: bv16, b: bv16)
    ensures LowByte(a & b) == LowByte(a) & LowByte(b)
  {
  }

  lemma LowMask(startBit: bv8, nbits: bv8)
    requires startBit < 8 && nbits <= 8 - startBit
    ensures LowByte(Mask16(startBit, nbits)) == Mask8(startBit, nbits)
  {
  }

  lemma LowShift(startBit: bv8, w: bv16)
    requires startBit < 8
    ensures LowByte(w << startBit) == LowByte(w) << startBit
  {
  }

  lemma MergeLowByte(own: bv8, startBit: bv8, nbits: bv8, readBack: bv8)
    requires startBit < 8 && nbits <= 8 - startBit
    ensures MergeReadBack(own, Mask16(startBit, nbits), 0, readBack) == own | (!Mask8(startBit, nbits) & readBack)
  {
  }

  /** A plain two-byte write puts the high byte at `slvadr` and the low byte after it. */
  lemma WordWriteIsBigEndian(regs: seq<bv8>, slvadr: nat, wdat: bv16)
    requires |regs| == 256
    ensures Plan(regs, slvadr, 0, 16, 2, false, 6, wdat)
         == [Store(Slot(slvadr, 0), HighByte(wdat)), Store(Slot(slvadr, 1), LowByte(wdat))]
  {
  }

  /** Without bit 1 of `access` nothing is written. */
  lemma NoWriteAccess(regs: seq<bv8>, slvadr: nat, startBit: bv8, nbits: bv8, nbytes: nat,
                      rmw: bool, access: bv8, wdat: bv16)
    requires |regs| == 256 && startBit < 16 && access & 2 == 0
    ensures Plan(regs, slvadr, startBit, nbits, nbytes, rmw, access, wdat) == []
  {
  }

  /** The tuner's register file as seen over the bus. */
  class TunerRegisters {
    var regs: seq<bv8>

    ghost predicate Valid()
      reads this
    {
      |regs| == 256
    }

    constructor (init: seq<bv8>)
      requires |init| == 256
      ensures Valid() && regs == init
    {
      regs := init;
    }

    /** One register write transfer; it either lands or changes nothing. */
    method Write(adr: nat, b: bv8) returns (ok: bool)
      requires Valid() && adr < 256
      modifies this
      ensures Valid()
      ensures regs == if ok then old(regs)[adr := b] else old(regs)
    {
      ok := *;
      if ok {
        regs := regs[adr := b];
      }
    }

    /** `tda2014x_w8`: a single register write. */
    method W8(slvadr: bv8, dat: bv8) returns (ok: bool)
      requires Valid()
      modifies this
      ensures Valid()
      ensures regs == if ok then old(regs)[slvadr as int := dat] else old(regs)
    {
      ok := Write(slvadr as int, dat);
    }

    /**
     * `tda2014x_r8` (which always reports success): the field of register
     * `slvadr`, below 2^nbits and equal, shifted back, to the masked register.
     */
    function R8(slvadr: nat, startBit: bv8, nbits: bv8): (rdat: bv8)
      requires Valid() && startBit < 8
      reads this
      ensures nbits <= 7 ==> rdat < 1 << nbits
      ensures nbits <= 7 && nbits <= 8 - startBit ==>
                rdat << startBit == regs[Slot(slvadr, 0)] & Mask8(startBit, nbits)
    {
      var val := regs[Slot(slvadr, 0)];
      Field(val, startBit, nbits)
    }

    /**
     * `tda2014x_w16`: the bytes of the field are written one register at a time,
     * stopping at the first failed transfer.
     */
    method W16(slvadr: nat, startBit: bv8, nbits: bv8, nbytes: nat, rmw: bool, access: bv8, wdat: bv16)
      returns (ok: bool)
      requires Valid() && startBit < 16
      modifies this
      ensures Valid()
      ensures var plan := Plan(old(regs), slvadr, startBit, nbits, nbytes, rmw, access, wdat);
              ok ==> regs == Apply(old(regs), plan)
      ensures var plan := Plan(old(regs), slvadr, startBit, nbits, nbytes, rmw, access, wdat);
              !ok ==> StoppedPartway(old(regs), regs, plan)
    {
      var mask := Mask16(startBit, nbits);
      var val := Positioned(startBit, nbits, wdat);
      ok := WriteBytes(slvadr, ByteCount(nbytes), rmw, access, val, mask);
    }

    /** The byte loop of `tda2014x_w16`, patching the bytes of `val` in place before sending each. */
    method WriteBytes(slvadr: nat, total: nat, rmw: bool, access: bv8, val: bv16, mask: bv16)
      returns (ok: bool)
      requires Valid() && 1 <= total <= 2
      modifies this
      ensures Valid()
      ensures var stores := Stores(old(regs), slvadr, total, rmw, access, val, mask);
              ok ==> regs == Apply(old(regs), stores)
      ensures var stores := Stores(old(regs), slvadr, total, rmw, access, val, mask);
              !ok ==> StoppedPartway(old(regs), regs, stores)
    {
      ghost var plan := Stores(regs, slvadr, total, rmw, access, val, mask);
      ghost var start := regs;
      if access & 2 != 0 {
        StoresAt(start, slvadr, total, rmw, access, val, mask, 0);
      }
      var wval := new bv8[2];
      wval[0], wval[1] := LowByte(val), HighByte(val);
      var n := total;
      var i := 0;
      while access & 2 != 0 && n > 0
        invariant Valid()
        invariant i + n == total && i <= |plan|
        invariant access & 2 == 0 ==> i == 0 && plan == []
        invariant regs == Apply(start, plan[..i])
        invariant forall j :: i <= j < total ==> regs[Slot(slvadr, j)] == start[Slot(slvadr, j)]
        invariant forall j :: 0 <= j < n ==> wval[j] == (if j == 0 then LowByte(val) else HighByte(val))
        decreases n
      {
        var ret := regs[Slot(slvadr, i)];
        if rmw {
          wval[n - 1] := MergeReadBack(wval[n - 1], mask, i, ret);
        }
        assert wval[n - 1] == StepByte(val, mask, total, i, rmw, start[Slot(slvadr, i)]);
        StoresAt(start, slvadr, total, rmw, access, val, mask, i);
        if i + 1 < total {
          SlotsDistinct(slvadr, i);
        }
        var sent := Write(Slot(slvadr, i), wval[n - 1]);
        if !sent {
          StoppedAt(start, plan, i);
          return false;
        }
        ApplyStep(start, plan, i);
        i, n := i + 1, n - 1;
      }
      assert plan[..i] == plan;
      ok := true;
    }
  }
}
