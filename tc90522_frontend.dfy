/**
 * Acquisition, status and CNR read-out of the TC90522 demodulator
 * (`tc90522_tune`, `tc90522_status`, `tc90522_cn_raw`), against an abstract
 * I2C bus that answers each transaction.
 */
module Tc90522Frontend {
  import opened Wrappers
  import opened Tc90522Plan
  import opened Tc90522Cnr

  datatype Delivery = IsdbT | IsdbS

  /** A demodulator bus transaction: a read of `len` bytes from `reg`, or a one-byte write. */
  datatype Txn = ReadTxn(reg: bv8, len: nat) | WriteTxn(reg: bv8, val: nat)

  /** Contents of the 16-byte `data` buffer. */
  type Block = s: seq<bv8> | |s| == 16 witness [0, 0, 0, 0, 0, 0, 0, 0, 0, 0, 0, 0, 0, 0, 0, 0]

  /**
   * The answer to one transaction: whether it completed and, for a read, the
   * bytes it leaves in the buffer (a failed read leaves some bytes too).
   */
  datatype Reply = Reply(ok: bool, data: Block)

  /** The bus: the reply to the `t`-th transaction of the session. */
  type Bus = (nat, Txn) -> Reply

  /** `enum fe_status`: SIGNAL | CARRIER | LOCK, the only nonzero value the driver stores. */
  const LOCKED: nat := 0x13

  /** `cnt = 999`: polls per tuning attempt. */
  const POLLS: nat := 999

  datatype Poll = Locked | Stopped | Again

  /** How a poll or a wait ended, and the number of the next transaction. */
  datatype Step = Step(poll: Poll, next: nat)

  // ---------------------------------------------------------------------
  // Polling
  // ---------------------------------------------------------------------

  /**
   * The `while (cnt--)` loop of `tc90522_tune`: up to `cnt` polls, each
   * starting at the transaction where the previous one ended, stopping at lock
   * or at a stop; running out of polls is a stop.
   */
  function WaitFor(poll: nat -> Step, t: nat, cnt: nat): (s: Step)
    ensures s.poll != Again
    decreases cnt
  {
    if cnt == 0 then Step(Stopped, t)
    else
      var s := poll(t);
      if s.poll == Again then WaitFor(poll, s.next, cnt - 1) else s
  }

  /** The first `n` polls from transaction `t` all go on. */
  predicate GoesOn(poll: nat -> Step, t: nat, n: nat)
    decreases n
  {
    n == 0 || (poll(t).poll == Again && GoesOn(poll, poll(t).next, n - 1))
  }

  /** The transaction at which poll `n` from `t` starts, when the polls before it go on. */
  function ReachAfter(poll: nat -> Step, t: nat, n: nat): nat
    decreases n
  {
    if n == 0 then t else ReachAfter(poll, poll(t).next, n - 1)
  }

  /** A wait with polls left is its first poll, followed by the rest of the wait if that poll goes on. */
  lemma WaitFirst(poll: nat -> Step, t: nat, cnt: nat)
    requires cnt > 0
    ensures WaitFor(poll, t, cnt) == if poll(t).poll == Again then WaitFor(poll, poll(t).next, cnt - 1) else poll(t)
  {
  }

  /** If every one of the `cnt` polls goes on, the wait gives up after exactly `cnt` polls. */
  lemma {:induction false} WaitTimesOut(poll: nat -> Step, t: nat, cnt: nat)
    requires GoesOn(poll, t, cnt)
    ensures WaitFor(poll, t, cnt) == Step(Stopped, ReachAfter(poll, t, cnt))
    decreases cnt
  {
    if cnt > 0 {
      WaitTimesOut(poll, poll(t).next, cnt - 1);
    }
  }

  /** If the first `j` polls go on and poll `j` locks, with `j` below the budget, the wait locks with that poll. */
  lemma {:induction false} WaitLocksAt(poll: nat -> Step, t: nat, cnt: nat, j: nat)
    requires j < cnt
    requires GoesOn(poll, t, j)
    requires poll(ReachAfter(poll, t, j)).poll == Locked
    ensures WaitFor(poll, t, cnt) == poll(ReachAfter(poll, t, j))
    decreases j
  {
    if j > 0 {
      WaitLocksAt(poll, poll(t).next, cnt - 1, j - 1);
    }
  }

  /** With polls that never stop, the wait stops exactly when all `cnt` polls go on. */
  lemma {:induction false} WaitStopsOnlyAtBudget(poll: nat -> Step, t: nat, cnt: nat)
    requires forall u :: poll(u).poll != Stopped
    ensures WaitFor(poll, t, cnt).poll == Stopped <==> GoesOn(poll, t, cnt)
    decreases cnt
  {
    if cnt > 0 {
      WaitStopsOnlyAtBudget(poll, poll(t).next, cnt - 1);
    }
  }

  // ---------------------------------------------------------------------
  // ISDB-T acquisition
  // ---------------------------------------------------------------------

  /**
   * One ISDB-T poll: read 0x80 and 0xB0; lock is bit 3 of 0x80 clear and bit 3
   * of 0xB0 set, tested before the retry-overflow bit 7 of 0x80.
   */
  function TerrestrialPoll(bus: Bus, t: nat): (s: Step)
    ensures t < s.next <= t + 2
  {
    var r0 := bus(t, ReadTxn(0x80, 1));
    if !r0.ok then Step(Stopped, t + 1)
    else
      var r1 := bus(t + 1, ReadTxn(0xB0, 1));
      if !r1.ok then Step(Stopped, t + 2)
      else if r0.data[0] & 0x08 == 0 && r1.data[0] & 0x08 != 0 then Step(Locked, t + 2)
      else if r0.data[0] & 0x80 != 0 then Step(Stopped, t + 2)
      else Step(Again, t + 2)
  }

  /** The ISDB-T poll as a function of the transaction it starts at. */
  function TerrestrialPolls(bus: Bus): nat -> Step
  {
    (u: nat) => TerrestrialPoll(bus, u)
  }

  /** Up to `cnt` ISDB-T polls. */
  function TerrestrialWait(bus: Bus, t: nat, cnt: nat): (s: Step)
    ensures s.poll != Again
  {
    WaitFor(TerrestrialPolls(bus), t, cnt)
  }

  /** A poll locks exactly when both reads complete and the two lock bits agree, whatever bit 7 says. */
  lemma TerrestrialLockCondition(bus: Bus, t: nat)
    ensures TerrestrialPoll(bus, t).poll == Locked <==>
              && bus(t, ReadTxn(0x80, 1)).ok
              && bus(t + 1, ReadTxn(0xB0, 1)).ok
              && bus(t, ReadTxn(0x80, 1)).data[0] & 0x08 == 0
              && bus(t + 1, ReadTxn(0xB0, 1)).data[0] & 0x08 != 0
  {
  }

  /** A wait spends at most two transactions per poll. */
  lemma {:induction false} TerrestrialWaitBound(bus: Bus, t: nat, cnt: nat)
    ensures t <= TerrestrialWait(bus, t, cnt).next <= t + 2 * cnt
    decreases cnt
  {
    if cnt > 0 && TerrestrialPoll(bus, t).poll == Again {
      TerrestrialWaitBound(bus, t + 2, cnt - 1);
    }
  }

  /** A poll that goes on leaves the rest of the wait to the next poll, two transactions later. */
  lemma TerrestrialWaitAgain(bus: Bus, t: nat, cnt: nat)
    requires cnt > 0 && TerrestrialPoll(bus, t).poll == Again
    ensures TerrestrialWait(bus, t, cnt) == TerrestrialWait(bus, t + 2, cnt - 1)
  {
  }

  /** The `n` polls starting at transaction `t`, two transactions apart, all go on. */
  predicate PollsGoOn(bus: Bus, t: nat, n: nat)
    decreases n
  {
    n == 0 || (TerrestrialPoll(bus, t).poll == Again && PollsGoOn(bus, t + 2, n - 1))
  }

  /** If every one of the `cnt` polls neither locks nor stops, the wait gives up after exactly `cnt` polls. */
  lemma {:induction false} TerrestrialTimesOut(bus: Bus, t: nat, cnt: nat)
    requires PollsGoOn(bus, t, cnt)
    ensures TerrestrialWait(bus, t, cnt) == Step(Stopped, t + 2 * cnt)
    decreases cnt
  {
    if cnt > 0 {
      TerrestrialWaitAgain(bus, t, cnt);
      TerrestrialTimesOut(bus, t + 2, cnt - 1);
    }
  }

  /** If the first `j` polls go on and poll `j` locks, with `j` below the budget, the wait locks there. */
  lemma {:induction false} TerrestrialLocksAt(bus: Bus, t: nat, cnt: nat, j: nat)
    requires j < cnt
    requires PollsGoOn(bus, t, j)
    requires TerrestrialPoll(bus, t + 2 * j).poll == Locked
    ensures TerrestrialWait(bus, t, cnt) == Step(Locked, t + 2 * j + 2)
    decreases j
  {
    if j == 0 {
      assert TerrestrialPoll(bus, t) == Step(Locked, t + 2);
    } else {
      TerrestrialWaitAgain(bus, t, cnt);
      assert t + 2 + 2 * (j - 1) == t + 2 * j;
      TerrestrialLocksAt(bus, t + 2, cnt - 1, j - 1);
    }
  }

  // ---------------------------------------------------------------------
  // ISDB-S acquisition
  // ---------------------------------------------------------------------

  /** The TSID in slot `i` (0..7) of the 16-byte 0xCE table, big-endian. */
  function Tsid(table: Block, i: nat): (tsid: nat)
    requires i < 8
    ensures tsid < 0x1_0000
  {
    BigEndianBound(table[2 * i .. 2 * i + 2]);
    BigEndian(table[2 * i .. 2 * i + 2])
  }

  /** A slot is tried when it holds a TSID (not 0, not 0xFFFF) that the stream id names, by value or by slot index. */
  predicate Acceptable(table: Block, i: nat, setId: u16)
    requires i < 8
  {
    var tsid := Tsid(table, i);
    tsid != 0 && tsid != 0xFFFF && (setId == tsid || setId == i)
  }

  /**
   * Selecting a TSID: write it to 0x8F/0x90 and read 0xE6 back; it locks when
   * every transfer completes and the read-back equals the TSID.
   */
  function SelectTsid(bus: Bus, t: nat, tsid: nat): (s: Step)
    ensures s.poll != Stopped && t < s.next <= t + 3
  {
    if !bus(t, WriteTxn(0x8F, tsid / 256)).ok then Step(Again, t + 1)
    else if !bus(t + 1, WriteTxn(0x90, tsid % 256)).ok then Step(Again, t + 2)
    else
      var back := bus(t + 2, ReadTxn(0xE6, 2));
      if back.ok && BigEndian(back.data[..2]) == tsid then Step(Locked, t + 3)
      else Step(Again, t + 3)
  }

  /**
   * Trying slot `i` alone: a slot that is not acceptable is skipped without a
   * transaction; an acceptable one has its TSID selected.
   */
  function SlotTry(bus: Bus, t: nat, setId: u16, table: Block, i: nat): (s: Step)
    requires i < 8
    ensures s.poll != Stopped && t <= s.next <= t + 3
    ensures s.poll == Locked ==> Acceptable(table, i, setId)
  {
    if !Acceptable(table, i, setId) then Step(Again, t) else SelectTsid(bus, t, Tsid(table, i))
  }

  /**
   * The slot scan from slot `i`: each slot is tried in turn until one locks;
   * a failed transfer moves on to the next slot.
   */
  function SlotScan(bus: Bus, t: nat, setId: u16, table: Block, i: nat): (s: Step)
    requires i <= 8
    ensures s.poll != Stopped && s.next >= t
    decreases 8 - i
  {
    if i == 8 then Step(Again, t)
    else
      var s := SlotTry(bus, t, setId, table, i);
      if s.poll == Locked then s else SlotScan(bus, s.next, setId, table, i + 1)
  }

  /**
   * One ISDB-S poll: read 0xC3 and 0xCE ignoring whether they completed, and
   * give up unless the carrier bit 4 of 0xC3 is clear and 0xCE holds a nonzero
   * TSID; then fetch and scan the TSID table.
   */
  function SatellitePoll(bus: Bus, t: nat, setId: u16): (s: Step)
    ensures s.poll != Stopped && s.next > t
  {
    var status := bus(t, ReadTxn(0xC3, 1));
    if status.data[0] & 0x10 != 0 then Step(Again, t + 1)
    else
      var first := bus(t + 1, ReadTxn(0xCE, 2));
      if first.data[0] == 0 && first.data[1] == 0 then Step(Again, t + 2)
      else TableScan(bus, t + 2, setId)
  }

  /** Read 0xC3 again and the 16-byte 0xCE table, both required to complete, then scan the 8 slots. */
  function TableScan(bus: Bus, t: nat, setId: u16): (s: Step)
    ensures s.poll != Stopped && s.next > t
  {
    if !bus(t, ReadTxn(0xC3, 1)).ok then Step(Again, t + 1)
    else
      var table := bus(t + 1, ReadTxn(0xCE, 16));
      if !table.ok then Step(Again, t + 2)
      else SlotScan(bus, t + 2, setId, table.data, 0)
  }

  /** The ISDB-S poll as a function of the transaction it starts at. */
  function SatellitePolls(bus: Bus, setId: u16): nat -> Step
  {
    (u: nat) => SatellitePoll(bus, u, setId)
  }

  /** Up to `cnt` ISDB-S polls. */
  function SatelliteWait(bus: Bus, t: nat, setId: u16, cnt: nat): (s: Step)
    ensures s.poll != Again
  {
    WaitFor(SatellitePolls(bus, setId), t, cnt)
  }

  /** A selection locks exactly when both writes and the 0xE6 read complete and the read-back is the TSID. */
  lemma SelectTsidLockCondition(bus: Bus, t: nat, tsid: nat)
    ensures SelectTsid(bus, t, tsid).poll == Locked <==>
              && bus(t, WriteTxn(0x8F, tsid / 256)).ok
              && bus(t + 1, WriteTxn(0x90, tsid % 256)).ok
              && bus(t + 2, ReadTxn(0xE6, 2)).ok
              && BigEndian(bus(t + 2, ReadTxn(0xE6, 2)).data[..2]) == tsid
  {
  }

  /** The transaction at which the scan from slot `i` at `t` reaches slot `j`, if no slot in between locks. */
  function SlotReach(bus: Bus, t: nat, setId: u16, table: Block, i: nat, j: nat): (u: nat)
    requires i <= j <= 8
    ensures t <= u <= t + 3 * (j - i)
    decreases j - i
  {
    if i == j then t else SlotReach(bus, SlotTry(bus, t, setId, table, i).next, setId, table, i + 1, j)
  }

  /** The slots `i` .. `j - 1` of the scan from transaction `t` all fail to lock. */
  predicate SlotsGoOn(bus: Bus, t: nat, setId: u16, table: Block, i: nat, j: nat)
    requires i <= j <= 8
    decreases j - i
  {
    i == j ||
    (SlotTry(bus, t, setId, table, i).poll == Again &&
     SlotsGoOn(bus, SlotTry(bus, t, setId, table, i).next, setId, table, i + 1, j))
  }

  /** Slots that fail to lock leave the rest of the scan to slot `j`, where they leave the bus. */
  lemma {:induction false} SlotScanSkips(bus: Bus, t: nat, setId: u16, table: Block, i: nat, j: nat)
    requires i <= j <= 8
    requires SlotsGoOn(bus, t, setId, table, i, j)
    ensures SlotScan(bus, t, setId, table, i) == SlotScan(bus, SlotReach(bus, t, setId, table, i, j), setId, table, j)
    decreases j - i
  {
    if i < j {
      SlotScanSkips(bus, SlotTry(bus, t, setId, table, i).next, setId, table, i + 1, j);
    }
  }

  /** If no slot before `j` locks and slot `j` does, the scan locks with slot `j`'s selection. */
  lemma SlotScanLocksAt(bus: Bus, t: nat, setId: u16, table: Block, i: nat, j: nat)
    requires i <= j < 8
    requires SlotsGoOn(bus, t, setId, table, i, j)
    requires SlotTry(bus, SlotReach(bus, t, setId, table, i, j), setId, table, j).poll == Locked
    ensures SlotScan(bus, t, setId, table, i) == SlotTry(bus, SlotReach(bus, t, setId, table, i, j), setId, table, j)
  {
    SlotScanSkips(bus, t, setId, table, i, j);
  }

  /** If no slot locks, the scan goes on once every slot has been tried. */
  lemma SlotScanMisses(bus: Bus, t: nat, setId: u16, table: Block, i: nat)
    requires i <= 8
    requires SlotsGoOn(bus, t, setId, table, i, 8)
    ensures SlotScan(bus, t, setId, table, i) == Step(Again, SlotReach(bus, t, setId, table, i, 8))
  {
    SlotScanSkips(bus, t, setId, table, i, 8);
  }

  /**
   * Slot `j`, tried at transaction `u`, ends with `s` and locks: it is
   * acceptable, and its TSID was read back from 0xE6 unchanged.
   */
  predicate SlotLocks(bus: Bus, u: nat, setId: u16, table: Block, j: nat, s: Step)
    requires j < 8
  {
    && Acceptable(table, j, setId)
    && SlotTry(bus, u, setId, table, j) == s
    && s.poll == Locked
    && bus(u + 2, ReadTxn(0xE6, 2)).ok
    && BigEndian(bus(u + 2, ReadTxn(0xE6, 2)).data[..2]) == Tsid(table, j)
  }

  /** The scan from slot `i` at `t` locks at slot `j`, and the slots before `j` fail to lock. */
  predicate ScanLocksAt(bus: Bus, t: nat, setId: u16, table: Block, i: nat, j: nat)
    requires i <= j < 8
  {
    && SlotsGoOn(bus, t, setId, table, i, j)
    && SlotLocks(bus, SlotReach(bus, t, setId, table, i, j), setId, table, j, SlotScan(bus, t, setId, table, i))
  }

  /** A slot before `j` that fails to lock hands the scan, the slots up to `j` and their cost on to the next slot. */
  lemma SlotGoesOn(bus: Bus, t: nat, setId: u16, table: Block, i: nat, j: nat)
    requires i < j <= 8
    requires SlotTry(bus, t, setId, table, i).poll == Again
    ensures var next := SlotTry(bus, t, setId, table, i).next;
            && SlotScan(bus, t, setId, table, i) == SlotScan(bus, next, setId, table, i + 1)
            && SlotReach(bus, t, setId, table, i, j) == SlotReach(bus, next, setId, table, i + 1, j)
            && (SlotsGoOn(bus, t, setId, table, i, j) <==> SlotsGoOn(bus, next, setId, table, i + 1, j))
  {
  }

  /** A slot that fails to lock passes a lock at a later slot back to the scan that tried it. */
  lemma ScanLocksAtEarlier(bus: Bus, t: nat, setId: u16, table: Block, i: nat, j: nat)
    requires i < j < 8
    requires SlotTry(bus, t, setId, table, i).poll == Again
    requires ScanLocksAt(bus, SlotTry(bus, t, setId, table, i).next, setId, table, i + 1, j)
    ensures ScanLocksAt(bus, t, setId, table, i, j)
  {
    SlotGoesOn(bus, t, setId, table, i, j);
  }

  /** A scan that locks does so at a slot that locks, and every slot before it fails to. */
  lemma {:induction false} SlotScanSound(bus: Bus, t: nat, setId: u16, table: Block, i: nat)
    requires i <= 8
    requires SlotScan(bus, t, setId, table, i).poll == Locked
    ensures exists j :: i <= j < 8 && ScanLocksAt(bus, t, setId, table, i, j)
    decreases 8 - i
  {
    var s := SlotTry(bus, t, setId, table, i);
    if s.poll == Locked {
      SelectTsidLockCondition(bus, t, Tsid(table, i));
      assert ScanLocksAt(bus, t, setId, table, i, i);
    } else {
      SlotScanSound(bus, s.next, setId, table, i + 1);
      var j :| i + 1 <= j < 8 && ScanLocksAt(bus, s.next, setId, table, i + 1, j);
      ScanLocksAtEarlier(bus, t, setId, table, i, j);
    }
  }

  /** Without an acceptable slot the scan performs no transaction and does not lock. */
  lemma {:induction false} SlotScanNoCandidate(bus: Bus, t: nat, setId: u16, table: Block, i: nat)
    requires i <= 8
    requires forall j :: i <= j < 8 ==> !Acceptable(table, j, setId)
    ensures SlotScan(bus, t, setId, table, i) == Step(Again, t)
    decreases 8 - i
  {
    if i < 8 {
      SlotScanNoCandidate(bus, t, setId, table, i + 1);
    }
  }

  /** The scan depends only on the replies from transaction `t` on. */
  lemma {:induction false} SlotScanFrame(bus1: Bus, bus2: Bus, t: nat, setId: u16, table: Block, i: nat)
    requires i <= 8
    requires forall n, x :: n >= t ==> bus1(n, x) == bus2(n, x)
    ensures SlotScan(bus1, t, setId, table, i) == SlotScan(bus2, t, setId, table, i)
    decreases 8 - i
  {
    if i < 8 {
      var tsid := Tsid(table, i);
      assert SlotTry(bus1, t, setId, table, i) == SlotTry(bus2, t, setId, table, i) by {
        assert bus1(t, WriteTxn(0x8F, tsid / 256)) == bus2(t, WriteTxn(0x8F, tsid / 256));
        assert bus1(t + 1, WriteTxn(0x90, tsid % 256)) == bus2(t + 1, WriteTxn(0x90, tsid % 256));
        assert bus1(t + 2, ReadTxn(0xE6, 2)) == bus2(t + 2, ReadTxn(0xE6, 2));
      }
      SlotScanFrame(bus1, bus2, SlotTry(bus1, t, setId, table, i).next, setId, table, i + 1);
    }
  }

  /** Whether the first 0xC3 and 0xCE reads completed makes no difference to the poll. */
  lemma FirstReadsIgnored(bus1: Bus, bus2: Bus, t: nat, setId: u16)
    requires forall n, x :: t <= n < t + 2 ==> bus1(n, x).data == bus2(n, x).data
    requires forall n, x :: n >= t + 2 ==> bus1(n, x) == bus2(n, x)
    ensures SatellitePoll(bus1, t, setId) == SatellitePoll(bus2, t, setId)
  {
    assert bus1(t, ReadTxn(0xC3, 1)).data == bus2(t, ReadTxn(0xC3, 1)).data;
    assert bus1(t + 1, ReadTxn(0xCE, 2)).data == bus2(t + 1, ReadTxn(0xCE, 2)).data;
    TableScanFrame(bus1, bus2, t + 2, setId);
  }

  /** The table fetch and scan depend only on the replies from transaction `t` on. */
  lemma TableScanFrame(bus1: Bus, bus2: Bus, t: nat, setId: u16)
    requires forall n, x :: n >= t ==> bus1(n, x) == bus2(n, x)
    ensures TableScan(bus1, t, setId) == TableScan(bus2, t, setId)
  {
    assert bus1(t, ReadTxn(0xC3, 1)) == bus2(t, ReadTxn(0xC3, 1));
    var table := bus1(t + 1, ReadTxn(0xCE, 16));
    assert table == bus2(t + 1, ReadTxn(0xCE, 16));
    SlotScanFrame(bus1, bus2, t + 2, setId, table.data, 0);
  }

  /**
   * A poll locks exactly when the carrier bit of 0xC3 is clear, 0xCE holds a
   * nonzero TSID, the second 0xC3 read and the table read complete, and the
   * scan of that table locks.
   */
  lemma SatellitePollLockCondition(bus: Bus, t: nat, setId: u16)
    ensures SatellitePoll(bus, t, setId).poll == Locked <==>
              && bus(t, ReadTxn(0xC3, 1)).data[0] & 0x10 == 0
              && !(bus(t + 1, ReadTxn(0xCE, 2)).data[0] == 0 && bus(t + 1, ReadTxn(0xCE, 2)).data[1] == 0)
              && bus(t + 2, ReadTxn(0xC3, 1)).ok
              && bus(t + 3, ReadTxn(0xCE, 16)).ok
              && SlotScan(bus, t + 4, setId, bus(t + 3, ReadTxn(0xCE, 16)).data, 0).poll == Locked
  {
  }

  /** If every one of the `cnt` ISDB-S polls goes on, the wait gives up after exactly `cnt` polls. */
  lemma SatelliteTimesOut(bus: Bus, t: nat, setId: u16, cnt: nat)
    requires GoesOn(SatellitePolls(bus, setId), t, cnt)
    ensures SatelliteWait(bus, t, setId, cnt) == Step(Stopped, ReachAfter(SatellitePolls(bus, setId), t, cnt))
  {
    WaitTimesOut(SatellitePolls(bus, setId), t, cnt);
  }

  /** If the first `j` ISDB-S polls go on and poll `j` locks, with `j` below the budget, the wait locks with that poll. */
  lemma SatelliteLocksAt(bus: Bus, t: nat, setId: u16, cnt: nat, j: nat)
    requires j < cnt
    requires GoesOn(SatellitePolls(bus, setId), t, j)
    requires SatellitePoll(bus, ReachAfter(SatellitePolls(bus, setId), t, j), setId).poll == Locked
    ensures SatelliteWait(bus, t, setId, cnt) == SatellitePoll(bus, ReachAfter(SatellitePolls(bus, setId), t, j), setId)
  {
    WaitLocksAt(SatellitePolls(bus, setId), t, cnt, j);
  }

  /** An ISDB-S poll never stops, so the wait stops exactly when all `cnt` polls go on. */
  lemma SatelliteStopsOnlyAtBudget(bus: Bus, t: nat, setId: u16, cnt: nat)
    ensures SatelliteWait(bus, t, setId, cnt).poll == Stopped <==> GoesOn(SatellitePolls(bus, setId), t, cnt)
  {
    forall u: nat
      ensures SatellitePolls(bus, setId)(u).poll != Stopped
    {
    }
    WaitStopsOnlyAtBudget(SatellitePolls(bus, setId), t, cnt);
  }

  // ---------------------------------------------------------------------
  // CNR read-out
  // ---------------------------------------------------------------------

  /**
   * The CNR register: 0xBC (2 bytes) for ISDB-S, 0x8B (3 bytes) for ISDB-T. Both
   * reads are short enough for the `u32` of `tc90522_n2int` to hold them whole.
   */
  function CnTxn(d: Delivery): (r: Txn)
    ensures r.ReadTxn? && r.len <= 4
    ensures Pow256(r.len) == if d == IsdbS then 0x1_0000 else 0x100_0000
  {
    if d == IsdbS then ReadTxn(0xBC, 2) else ReadTxn(0x8B, 3)
  }

  /** `tc90522_cn_raw`'s return value: -EIO on a failed read, else the register value. */
  function CnValue(d: Delivery, r: Reply): (cn: int)
    ensures !r.ok <==> cn == -EIO
    ensures r.ok ==> 0 <= cn < (if d == IsdbS then 0x1_0000 else 0x100_0000)
  {
    var len := CnTxn(d).len;
    BigEndianBound(r.data[..len]);
    if !r.ok then -EIO else BigEndian(r.data[..len])
  }

  /**
   * The wait of the selected delivery system. It ends in lock or stop; an
   * ISDB-S wait stops only once every one of its polls has gone on.
   */
  function Wait(d: Delivery, bus: Bus, t: nat, setId: u16): (s: Step)
    ensures s.poll != Again
    ensures d != IsdbT ==> (s.poll == Stopped <==> GoesOn(SatellitePolls(bus, setId), t, POLLS))
  {
    if d == IsdbT then TerrestrialWait(bus, t, POLLS)
    else
      SatelliteStopsOnlyAtBudget(bus, t, setId, POLLS);
      SatelliteWait(bus, t, setId, POLLS)
  }

  /**
   * The channel resolution applied to the requested frequency: the result lies
   * in the band of the delivery system and resolves to itself.
   */
  function Resolve(d: Delivery, f: u32): (r: u32)
    ensures d == IsdbT ==> r >= TER_MIN_HZ && TerrestrialHz(r) == r
    ensures d != IsdbT && f >= 1 ==> SAT_MIN_KHZ <= r <= SAT_MAX_KHZ && SatelliteKHz(r) == r
  {
    if d == IsdbT then TerrestrialHz(f) else SatelliteKHz(f)
  }

  // ---------------------------------------------------------------------
  // The demodulator
  // ---------------------------------------------------------------------

  class Demodulator {
    /** The shared status word handed out by `tc90522_status`. */
    var festat: nat
    /** `dtv_property_cache.frequency`. */
    var frequency: u32
    /** `dtv_property_cache.cnr.stat[0].svalue`. */
    var cnr: int
    /** Number of bus transactions so far. */
    var txn: nat
    const delivery: Delivery
    const streamId: u16
    const bus: Bus

    constructor (delivery: Delivery, streamId: u16, frequency: u32, bus: Bus)
      ensures this.delivery == delivery && this.streamId == streamId && this.bus == bus
      ensures this.frequency == frequency && festat == 0 && cnr == 0 && txn == 0
    {
      this.delivery := delivery;
      this.streamId := streamId;
      this.bus := bus;
      this.frequency := frequency;
      festat := 0;
      cnr := 0;
      txn := 0;
    }

    /** `tc90522_r`: `len` bytes from `reg` into `data[offset..]`. */
    method Read(reg: bv8, len: nat, data: array<bv8>, offset: nat) returns (ok: bool)
      requires len <= 16 && offset + len <= data.Length
      modifies this, data
      ensures festat == old(festat) && frequency == old(frequency) && cnr == old(cnr)
      ensures txn == old(txn) + 1
      ensures var r := bus(old(txn), ReadTxn(reg, len));
              ok == r.ok && data[offset..offset + len] == r.data[..len]
      ensures forall k :: 0 <= k < data.Length && !(offset <= k < offset + len) ==> data[k] == old(data[k])
    {
      var r := bus(txn, ReadTxn(reg, len));
      forall k | 0 <= k < len {
        data[offset + k] := r.data[k];
      }
      ok := r.ok;
      txn := txn + 1;
    }

    /** `tc90522_w`: one byte to `reg`. */
    method Write(reg: bv8, val: nat) returns (ok: bool)
      modifies this
      ensures festat == old(festat) && frequency == old(frequency) && cnr == old(cnr)
      ensures txn == old(txn) + 1
      ensures ok == bus(old(txn), WriteTxn(reg, val)).ok
    {
      ok := bus(txn, WriteTxn(reg, val)).ok;
      txn := txn + 1;
    }

    /** `tc90522_cn_raw`: the CNR register value, or -EIO; `snr` is written only on success. */
    method CnRaw() returns (ret: int, snr: Option<u16>)
      modifies this
      ensures festat == old(festat) && frequency == old(frequency) && cnr == old(cnr)
      ensures txn == old(txn) + 1
      ensures ret == CnValue(delivery, bus(old(txn), CnTxn(delivery)))
      ensures snr == if ret < 0 then None else Some(ret % 0x1_0000)
    {
      var buf := new bv8[3];
      var len := if delivery == IsdbS then 2 else 3;
      var adr := if delivery == IsdbS then 0xBC else 0x8B;
      var ok := Read(adr, len, buf, 0);
      var cn := N2Int(buf[..], len);
      assert buf[..][..len] == bus(old(txn), CnTxn(delivery)).data[..len];
      if !ok {
        return -EIO, None;
      }
      ret, snr := cn, Some(cn % 0x1_0000);
    }

    /**
     * `tc90522_status`: refresh the CNR statistic from the raw value and report
     * the status word, which it never changes.
     */
    method Status(intlog10: u32 -> u32) returns (ret: nat, stat: nat)
      modifies this
      ensures festat == old(festat) && frequency == old(frequency)
      ensures ret == festat && stat == festat
      ensures txn == old(txn) + 1
      ensures var raw := CnValue(delivery, bus(old(txn), CnTxn(delivery)));
              cnr == if delivery == IsdbS then CnS(raw) else CnT(raw, intlog10)
    {
      var raw, _ := CnRaw();
      cnr := if delivery == IsdbS then CnS(raw) else CnT(raw, intlog10);
      stat := festat;
      ret := festat;
    }

    /**
     * `tc90522_tune`: on a retune, clear the status word, resolve the requested
     * frequency, start the tuner (its result is `tunerResult`), and poll for
     * lock at most 999 times. `stat` is None when `*stat` is not written.
     */
    method Tune(retune: bool, tunerResult: int) returns (ret: int, stat: Option<nat>)
      modifies this
      ensures cnr == old(cnr)
      ensures !retune ==> ret == 0 && stat == None && festat == old(festat)
                          && frequency == old(frequency) && txn == old(txn)
      ensures retune ==> frequency == Resolve(delivery, old(frequency))
      ensures retune && tunerResult != 0 ==> ret == -EIO && stat == None && festat == 0 && txn == old(txn)
      ensures retune && tunerResult == 0 ==>
                var s := Wait(delivery, bus, old(txn), streamId);
                && txn == s.next && stat == Some(festat)
                && (s.poll == Locked ==> ret == 0 && festat == LOCKED)
                && (s.poll != Locked ==> ret == -ETIMEDOUT && festat == 0)
    {
      if !retune {
        return 0, None;
      }
      festat := 0;
      if delivery == IsdbT {
        frequency := TerrestrialHz(frequency);
      } else {
        frequency := SatelliteKHz(frequency);
      }
      if tunerResult != 0 {
        return -EIO, None;
      }
      var locked;
      if delivery == IsdbT {
        locked := AwaitTerrestrialLock();
      } else {
        locked := AwaitSatelliteLock();
      }
      if locked {
        festat := LOCKED;
        return 0, Some(festat);
      }
      stat := Some(festat);
      ret := -ETIMEDOUT;
    }

    /** The ISDB-T `while (cnt--)` loop of `tc90522_tune`. */
    method AwaitTerrestrialLock() returns (locked: bool)
      modifies this
      ensures festat == old(festat) && frequency == old(frequency) && cnr == old(cnr)
      ensures var s := TerrestrialWait(bus, old(txn), POLLS);
              txn == s.next && (locked <==> s.poll == Locked)
    {
      ghost var goal := TerrestrialWait(bus, txn, POLLS);
      var data := new bv8[16];
      var cnt := POLLS;
      while cnt > 0
        invariant festat == old(festat) && frequency == old(frequency) && cnr == old(cnr)
        invariant TerrestrialWait(bus, txn, cnt) == goal
        decreases cnt
      {
        ghost var t := txn;
        cnt := cnt - 1;
        var poll := TerrestrialRound(data);
        assert TerrestrialWait(bus, t, cnt + 1) ==
          if poll == Again then TerrestrialWait(bus, txn, cnt) else TerrestrialPoll(bus, t);
        if poll == Locked {
          return true;
        }
        if poll == Stopped {
          return false;
        }
      }
      locked := false;
    }

    /** One pass of the ISDB-T `while (cnt--)` body: a failed read or the retry-overflow bit stops the wait. */
    method TerrestrialRound(data: array<bv8>) returns (poll: Poll)
      requires data.Length == 16
      modifies this, data
      ensures festat == old(festat) && frequency == old(frequency) && cnr == old(cnr)
      ensures var s := TerrestrialPoll(bus, old(txn));
              txn == s.next && poll == s.poll
    {
      var ok := Read(0x80, 1, data, 0);
      if !ok {
        return Stopped;
      }
      assert data[0..1][0] == data[0];
      ok := Read(0xB0, 1, data, 1);
      if !ok {
        return Stopped;
      }
      assert data[1..2][0] == data[1];
      var retryov := data[0] & 0x80 != 0;
      var lock0 := data[0] & 0x08 == 0;
      var lock1 := data[1] & 0x08 != 0;
      if lock0 && lock1 {
        return Locked;
      }
      if retryov {
        return Stopped;
      }
      poll := Again;
    }

    /** The ISDB-S `while (cnt--)` loop of `tc90522_tune`. */
    method AwaitSatelliteLock() returns (locked: bool)
      modifies this
      ensures festat == old(festat) && frequency == old(frequency) && cnr == old(cnr)
      ensures var s := SatelliteWait(bus, old(txn), streamId, POLLS);
              txn == s.next && (locked <==> s.poll == Locked)
    {
      ghost var goal := SatelliteWait(bus, txn, streamId, POLLS);
      var data := new bv8[16];
      var cnt := POLLS;
      while cnt > 0
        invariant festat == old(festat) && frequency == old(frequency) && cnr == old(cnr)
        invariant SatelliteWait(bus, txn, streamId, cnt) == goal
        decreases cnt
      {
        ghost var t := txn;
        cnt := cnt - 1;
        locked := SatelliteRound(data);
        WaitFirst(SatellitePolls(bus, streamId), t, cnt + 1);
        assert SatelliteWait(bus, t, streamId, cnt + 1) ==
          if !locked then SatelliteWait(bus, txn, streamId, cnt) else SatellitePoll(bus, t, streamId);
        if locked {
          return true;
        }
      }
      locked := false;
    }

    /** One pass of the ISDB-S `while (cnt--)` body. */
    method SatelliteRound(data: array<bv8>) returns (locked: bool)
      requires data.Length == 16
      modifies this, data
      ensures festat == old(festat) && frequency == old(frequency) && cnr == old(cnr)
      ensures var s := SatellitePoll(bus, old(txn), streamId);
              txn == s.next && (locked <==> s.poll == Locked)
    {
      var go := Precheck(data);
      if !go {
        return false;
      }
      go := FetchTable(data);
      if !go {
        return false;
      }
      locked := ScanSlots(data);
    }

    /** The first 0xC3 and 0xCE reads, whose completion is ignored: carrier bit 4 clear and a nonzero TSID. */
    method Precheck(data: array<bv8>) returns (go: bool)
      requires data.Length == 16
      modifies this, data
      ensures festat == old(festat) && frequency == old(frequency) && cnr == old(cnr)
      ensures var status := bus(old(txn), ReadTxn(0xC3, 1));
              var first := bus(old(txn) + 1, ReadTxn(0xCE, 2));
              && (go <==> status.data[0] & 0x10 == 0 && !(first.data[0] == 0 && first.data[1] == 0))
              && (!go ==> SatellitePoll(bus, old(txn), streamId) == Step(Again, txn))
              && (go ==> txn == old(txn) + 2 && SatellitePoll(bus, old(txn), streamId) == TableScan(bus, txn, streamId))
    {
      var ignored := Read(0xC3, 1, data, 0);
      assert data[0..1][0] == data[0];
      if data[0] & 0x10 != 0 {
        return false;
      }
      ignored := Read(0xCE, 2, data, 0);
      assert data[0..2][0] == data[0] && data[0..2][1] == data[1];
      go := !(data[0] == 0 && data[1] == 0);
    }

    /** The second 0xC3 read and the 16-byte 0xCE table read, both required to complete. */
    method FetchTable(data: array<bv8>) returns (ok: bool)
      requires data.Length == 16
      modifies this, data
      ensures festat == old(festat) && frequency == old(frequency) && cnr == old(cnr)
      ensures var table := bus(old(txn) + 1, ReadTxn(0xCE, 16));
              && (ok <==> bus(old(txn), ReadTxn(0xC3, 1)).ok && table.ok)
              && (!ok ==> TableScan(bus, old(txn), streamId) == Step(Again, txn))
              && (ok ==> txn == old(txn) + 2 && data[..] == table.data)
              && (ok ==> TableScan(bus, old(txn), streamId) == SlotScan(bus, txn, streamId, data[..], 0))
    {
      ok := Read(0xC3, 1, data, 0);
      if !ok {
        return;
      }
      ok := Read(0xCE, 16, data, 0);
      assert data[..] == data[0..16];
    }

    /** The `for (i = 0; i < 8; i++)` slot scan over the 0xCE table in `data`. */
    method ScanSlots(data: array<bv8>) returns (locked: bool)
      requires data.Length == 16
      modifies this, data
      ensures festat == old(festat) && frequency == old(frequency) && cnr == old(cnr)
      ensures var s := SlotScan(bus, old(txn), streamId, old(data[..]), 0);
              txn == s.next && (locked <==> s.poll == Locked)
    {
      ghost var table: Block := data[..];
      assert forall k :: 0 <= k < 16 ==> data[k] == table[k];
      ghost var goal := SlotScan(bus, txn, streamId, table, 0);
      var i := 0;
      while i < 8
        invariant i <= 8
        invariant festat == old(festat) && frequency == old(frequency) && cnr == old(cnr)
        invariant SlotScan(bus, txn, streamId, table, i) == goal
        invariant forall k :: 2 * i <= k < 16 ==> data[k] == table[k]
        decreases 8 - i
      {
        locked := TrySlot(data, i, table);
        if locked {
          return;
        }
        i := i + 1;
      }
      locked := false;
    }

    /** One pass of the slot loop: decode slot `i` and select its TSID when the stream id names it. */
    method TrySlot(data: array<bv8>, i: nat, ghost table: Block) returns (locked: bool)
      requires data.Length == 16 && i < 8
      requires forall k :: 2 * i <= k < 16 ==> data[k] == table[k]
      modifies this, data
      ensures festat == old(festat) && frequency == old(frequency) && cnr == old(cnr)
      ensures forall k :: 2 <= k < 16 ==> data[k] == old(data[k])
      ensures locked ==> SlotScan(bus, old(txn), streamId, table, i) == Step(Locked, txn)
      ensures !locked ==> SlotScan(bus, old(txn), streamId, table, i) == SlotScan(bus, txn, streamId, table, i + 1)
    {
      assert data[2 * i..][..2] == table[2 * i .. 2 * i + 2] by {
        assert data[2 * i] == table[2 * i] && data[2 * i + 1] == table[2 * i + 1];
      }
      var tsid := N2Int(data[2 * i..], 2);
      assert tsid == Tsid(table, i);
      if tsid != 0 && tsid != 0xFFFF && (streamId == tsid || streamId == i) {
        assert Acceptable(table, i, streamId);
        locked := Select(tsid, data);
      } else {
        assert !Acceptable(table, i, streamId);
        locked := false;
      }
    }

    /** The `&&` chain that selects one TSID; it reuses the first two bytes of `data`. */
    method Select(tsid: nat, data: array<bv8>) returns (selected: bool)
      requires data.Length == 16 && tsid < 0x1_0000
      modifies this, data
      ensures festat == old(festat) && frequency == old(frequency) && cnr == old(cnr)
      ensures forall k :: 2 <= k < 16 ==> data[k] == old(data[k])
      ensures var s := SelectTsid(bus, old(txn), tsid);
              txn == s.next && (selected <==> s.poll == Locked)
    {
      var ok := Write(0x8F, tsid / 256);
      if !ok {
        return false;
      }
      ok := Write(0x90, tsid % 256);
      if !ok {
        return false;
      }
      ok := Read(0xE6, 2, data, 0);
      if !ok {
        return false;
      }
      assert data[..][..2] == data[0..2];
      var back := N2Int(data[..], 2);
      selected := back == tsid;
    }
  }
}
