/**
 * The per-client counters of `struct mosquitto` that lib/util_mosq.c updates:
 * the 16-bit message-id counter and the inflight quotas of the incoming and
 * outgoing message data.
 */
module Counters {

  /** `uint16_t`. */
  newtype uint16 = x: int | 0 <= x < 0x1_0000

  /**
   * The mid `mosquitto__mid_generate` hands out after `last`: the 16-bit
   * successor of `last`, except that 0 is never a mid and is skipped.
   */
  function NextMid(last: uint16): (mid: uint16)
    ensures mid != 0
    ensures last < 0xFFFF ==> mid as int == last as int + 1
    ensures last == 0xFFFF ==> mid == 1
  {
    var wrapped := (last as int + 1) % 0x1_0000;
    if wrapped == 0 then 1 else wrapped as uint16
  }

  /** The value of `last_mid` after `k` calls, starting from `last`. */
  function MidAfter(last: uint16, k: nat): uint16
  {
    if k == 0 then last else NextMid(MidAfter(last, k - 1))
  }

  /**
   * The counter runs through the 65535 non-zero values in order, wrapping
   * from 65535 to 1; a fresh counter (`last == 0`) joins the cycle at 1 on
   * its first call.
   */
  lemma {:induction false} MidAfterCycles(last: uint16, k: nat)
    requires last != 0 || k > 0
    ensures MidAfter(last, k) as int == (last as int - 1 + k) % 0xFFFF + 1
  {
    if last == 0 && k == 1 {
      assert MidAfter(last, 1) == NextMid(0);
    } else if k > 0 {
      MidAfterCycles(last, k - 1);
      var prev := (last as int - 1 + k - 1) % 0xFFFF;
      if prev < 0xFFFE {
        assert (last as int - 1 + k) % 0xFFFF == prev + 1;
      } else {
        assert (last as int - 1 + k) % 0xFFFF == 0;
      }
    }
  }

  /**
   * No mid repeats within 65535 consecutive calls, and the 65535th call
   * returns to the starting value.
   */
  lemma MidsDistinct(last: uint16, i: nat, j: nat)
    requires (last != 0 || i > 0) && i < j
    ensures j - i < 0xFFFF ==> MidAfter(last, i) != MidAfter(last, j)
    ensures j - i == 0xFFFF ==> MidAfter(last, i) == MidAfter(last, j)
  {
    MidAfterCycles(last, i);
    MidAfterCycles(last, j);
  }

  /** `struct mosquitto_msg_data`'s inflight counters: the quota and its ceiling. */
  datatype MsgData = MsgData(inflightQuota: nat, inflightMaximum: nat)

  /** The quota lies within its bounds. */
  predicate QuotaInRange(d: MsgData)
  {
    d.inflightQuota <= d.inflightMaximum
  }

  /** The quota after an increment: one more while below the ceiling, else unchanged. */
  function IncrementedQuota(d: MsgData): (r: MsgData)
    ensures r.inflightMaximum == d.inflightMaximum
    ensures d.inflightQuota < d.inflightMaximum ==> r.inflightQuota == d.inflightQuota + 1
    ensures d.inflightQuota >= d.inflightMaximum ==> r == d
    ensures QuotaInRange(d) ==> QuotaInRange(r)
  {
    if d.inflightQuota < d.inflightMaximum then d.(inflightQuota := d.inflightQuota + 1) else d
  }

  /** The quota after a decrement: one less while above 0, else unchanged. */
  function DecrementedQuota(d: MsgData): (r: MsgData)
    ensures r.inflightMaximum == d.inflightMaximum
    ensures d.inflightQuota > 0 ==> r.inflightQuota == d.inflightQuota - 1
    ensures d.inflightQuota == 0 ==> r == d
    ensures QuotaInRange(d) ==> QuotaInRange(r)
  {
    if d.inflightQuota > 0 then d.(inflightQuota := d.inflightQuota - 1) else d
  }

  /** Away from the bounds, a decrement undoes an increment and vice versa. */
  lemma QuotaRoundTrip(d: MsgData)
    ensures d.inflightQuota < d.inflightMaximum ==> DecrementedQuota(IncrementedQuota(d)) == d
    ensures 0 < d.inflightQuota <= d.inflightMaximum ==> IncrementedQuota(DecrementedQuota(d)) == d
  {
  }

  /** The counters of one client connection, updated in place. */
  class Mosq {
    var lastMid: uint16
    var msgsIn: MsgData
    var msgsOut: MsgData

    constructor (lastMid: uint16, msgsIn: MsgData, msgsOut: MsgData)
      ensures this.lastMid == lastMid && this.msgsIn == msgsIn && this.msgsOut == msgsOut
    {
      this.lastMid, this.msgsIn, this.msgsOut := lastMid, msgsIn, msgsOut;
    }

    /** `mosquitto__mid_generate`: advances `last_mid`, skipping 0, and returns it. */
    method MidGenerate() returns (mid: uint16)
      modifies this`lastMid
      ensures mid != 0
      ensures mid == lastMid == NextMid(old(lastMid))
    {
      lastMid := ((lastMid as int + 1) % 0x1_0000) as uint16;
      if lastMid == 0 {
        lastMid := lastMid + 1;
      }
      mid := lastMid;
    }

    /** `util__increment_receive_quota`. */
    method IncrementReceiveQuota()
      modifies this`msgsIn
      ensures msgsIn == IncrementedQuota(old(msgsIn))
    {
      if msgsIn.inflightQuota < msgsIn.inflightMaximum {
        msgsIn := msgsIn.(inflightQuota := msgsIn.inflightQuota + 1);
      }
    }

    /** `util__increment_send_quota`. */
    method IncrementSendQuota()
      modifies this`msgsOut
      ensures msgsOut == IncrementedQuota(old(msgsOut))
    {
      if msgsOut.inflightQuota < msgsOut.inflightMaximum {
        msgsOut := msgsOut.(inflightQuota := msgsOut.inflightQuota + 1);
      }
    }

    /** `util__decrement_receive_quota`. */
    method DecrementReceiveQuota()
      modifies this`msgsIn
      ensures msgsIn == DecrementedQuota(old(msgsIn))
    {
      if msgsIn.inflightQuota > 0 {
        msgsIn := msgsIn.(inflightQuota := msgsIn.inflightQuota - 1);
      }
    }

    /** `util__decrement_send_quota`. */
    method DecrementSendQuota()
      modifies this`msgsOut
      ensures msgsOut == DecrementedQuota(old(msgsOut))
    {
      if msgsOut.inflightQuota > 0 {
        msgsOut := msgsOut.(inflightQuota := msgsOut.inflightQuota - 1);
      }
    }
  }
}
