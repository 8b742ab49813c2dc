/**
 * The PT3 stream checker: a captured transport stream is compared word by
 * word against a 16-bit Galois LFSR seeded from the delivery system and the
 * tuner index. The file is abstracted to the sequence of 16-bit words that
 * full two-byte reads return.
 */
module CheckLfsr {

  /** `get_lfsr`: (1 + 2*isdb + index) * 12345, truncated to an unsigned short. */
  function Seed(isdb: int, index: int): (s: bv16)
    ensures 0 <= isdb <= 1 && 0 <= index <= 1 ==>
              s as int == (1 + 2 * isdb + index) * 12345 && s != 0
  {
    ((1 + 2 * isdb + index) * 12345 % 0x1_0000) as bv16
  }

  /** One Galois step with taps 0xB400: shift right, then fold in the taps when bit 0 was set. */
  function Step(s: bv16): (t: bv16)
    ensures s & 1 == 0 ==> t == s >> 1
    ensures s & 1 == 1 ==> t == (s >> 1) ^ 0xB400
    ensures s != 0 ==> t != 0
  {
    (s >> 1) ^ ((0 - (s & 1)) & 0xB400)
  }

  /**
   * The expected word number `k`: `k` steps from the seed. A nonzero register
   * never collapses to zero, however many steps are taken.
   */
  function StepN(s: bv16, k: nat): (r: bv16)
    ensures s != 0 ==> r != 0
  {
    if k == 0 then s else Step(StepN(s, k - 1))
  }

  datatype Verdict = CheckOk | CheckNg(offset: nat)

  /**
   * The loop of `main`: compare each word with the register, stop at the
   * first mismatch and report the file position after the bad word; `read`
   * is the number of words consumed.
   */
  method Check(words: seq<bv16>, seed: bv16) returns (v: Verdict, read: nat)
    ensures v.CheckOk? <==> forall k :: 0 <= k < |words| ==> words[k] == StepN(seed, k)
    ensures v.CheckOk? ==> read == |words|
    ensures v.CheckNg? ==> 1 <= read <= |words| && v.offset == 2 * read
    ensures v.CheckNg? ==> words[read - 1] != StepN(seed, read - 1)
    ensures forall k :: 0 <= k < read - 1 ==> words[k] == StepN(seed, k)
  {
    var lfsr := seed;
    read := 0;
    while read < |words|
      invariant read <= |words|
      invariant lfsr == StepN(seed, read)
      invariant forall k :: 0 <= k < read ==> words[k] == StepN(seed, k)
    {
      var buf := words[read];
      read := read + 1;
      if buf != lfsr {
        return CheckNg(2 * read), read;
      }
      lfsr := Step(lfsr);
    }
    v := CheckOk;
  }
}
