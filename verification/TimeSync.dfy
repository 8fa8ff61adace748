/** The board's estimate of the host clock from four timestamps. */
module Exchange {
  /** A request leaves at `t1` and is answered at `t4` on the board's clock; the host received it at
    * `t2` and answered at `t3` on its own. All in nanoseconds. */
  datatype Exchange = Exchange(t1: int, t2: int, t3: int, t4: int) {
    /** The round-trip delay of section 8 of RFC 5905. */
    function Delay(): int {
      (t4 - t1) - (t3 - t2)
    }

    /** Twice the clock offset of section 8 of RFC 5905. */
    function OffsetTwice(): int {
      (t2 - t1) + (t3 - t4)
    }

    /** The offset that the code computes: the answer is dated half the delay later. */
    function Estimate(): int {
      t3 + Delay() / 2 - t4
    }

    /** The host's clock is `c` ahead, and every timestamp was taken after the one before. */
    predicate Causal(c: int) {
      t1 + c <= t2 <= t3 <= t4 + c
    }
  }

  function Magnitude(x: int): nat {
    if x < 0 then -x else x
  }

  function HalfUp(x: nat): nat {
    (x + 1) / 2
  }

  /** The estimate is the standard offset rounded down. */
  lemma EstimateIsOffset(x: Exchange)
    ensures x.Estimate() == x.OffsetTwice() / 2
  {
    assert x.OffsetTwice() == 2 * (x.t3 - x.t4) + x.Delay();
  }

  /** Whatever the split of the delay between the two ways, the estimate is off by at most half of it,
    * and an exchange that took all its delay on one way is off by that much. */
  lemma EstimateError(x: Exchange, c: int)
    requires x.Causal(c)
    ensures 0 <= x.Delay() && Magnitude(x.Estimate() - c) <= HalfUp(x.Delay())
    ensures x.t2 == x.t1 + c ==> Magnitude(x.Estimate() - c) == HalfUp(x.Delay())
  {
    var up := x.t2 - x.t1 - c;
    var down := x.t4 + c - x.t3;
    assert x.Delay() == up + down;
    assert x.Estimate() - c == (up + down) / 2 - down;
  }
}

module TimeSync {
  import opened Exchange
  import opened Common

  const NS_PER_SECOND: int := 1000000000
  const MAX_ROS_NS: int := 2147483647 * NS_PER_SECOND + NS_PER_SECOND - 1
  const INT64_MAX: int := 9223372036854775807

  newtype U32 = x: int | 0 <= x < 4294967296
  newtype U64 = x: int | 0 <= x < 18446744073709551616
  newtype I64 = x: int | -9223372036854775808 <= x < 9223372036854775808

  /** All arithmetic below is on 64-bit types that admit no wrap-around. */
  class Clock {
    var requestUs: U64
    var lastSyncUs: U64
    var maxRttNs: U64
    var timeoutUs: U64
    var offsetNs: I64
    var pending: bool
    var synced: bool
    /** The last accepted exchange. */
    ghost var accepted: Exchange

    ghost predicate Valid()
      reads this
    {
      synced ==>
        && offsetNs as int == accepted.Estimate()
        && 0 <= accepted.t3 - accepted.t2
        && 0 <= accepted.Delay() <= accepted.t4 - accepted.t1 <= maxRttNs as int
        && accepted.t4 == 1000 * lastSyncUs as int <= INT64_MAX
    }

    constructor (maxRttUs: U32, timeoutUs: U64)
      ensures Valid() && !pending && !synced
      ensures maxRttNs as int == 1000 * maxRttUs as int && this.timeoutUs == timeoutUs
    {
      maxRttNs := maxRttUs as U64 * 1000;
      this.timeoutUs := timeoutUs;
      requestUs, lastSyncUs, offsetNs := 0, 0, 0;
      pending, synced := false, false;
      accepted := Exchange(0, 0, 0, 0);
    }

    method Start(localUs: U64)
      requires Valid()
      modifies `requestUs, `pending
      ensures Valid() && pending && requestUs == localUs
    {
      requestUs := localUs;
      pending := true;
    }

    /** Whether an answer belongs to the pending request and all its times make sense. */
    predicate Answers(echoedUs: I64, hostReceiveNs: I64, hostSendNs: I64, localReceiveUs: U64)
      reads this
    {
      && pending && echoedUs as int == requestUs as int
      && requestUs <= localReceiveUs && 1000 * localReceiveUs as int <= INT64_MAX
      && 0 < hostReceiveNs <= hostSendNs && hostSendNs as int <= MAX_ROS_NS
    }

    /** Accepts the answer to the pending request, once, if the exchange was short enough. */
    method Accept(echoedUs: I64, hostReceiveNs: I64, hostSendNs: I64, localReceiveUs: U64) returns (ok: bool)
      requires Valid()
      modifies this
      ensures Valid()
      ensures maxRttNs == old(maxRttNs) && timeoutUs == old(timeoutUs) && requestUs == old(requestUs)
      ensures
        var x := Exchange(1000 * requestUs as int, hostReceiveNs as int, hostSendNs as int,
                          1000 * localReceiveUs as int);
        && (ok <==> old(Answers(echoedUs, hostReceiveNs, hostSendNs, localReceiveUs))
                    && x.t4 - x.t1 <= maxRttNs as int && 0 <= x.Delay() && x.t4 + x.Estimate() <= MAX_ROS_NS)
        && (ok ==> synced && !pending && accepted == x && lastSyncUs == localReceiveUs)
        && (!ok ==> accepted == old(accepted) && synced == old(synced) && pending == old(pending)
                    && offsetNs == old(offsetNs) && lastSyncUs == old(lastSyncUs))
    {
      if !pending || echoedUs < 0 || echoedUs as U64 != requestUs || localReceiveUs < requestUs
         || localReceiveUs > 9223372036854775807 / 1000
         || hostReceiveNs <= 0 || hostSendNs < hostReceiveNs || hostSendNs as int > MAX_ROS_NS {
        return false;
      }
      var elapsedNs: U64 := (localReceiveUs - requestUs) * 1000;
      var processingNs: U64 := (hostSendNs - hostReceiveNs) as U64;
      if elapsedNs > maxRttNs || processingNs > elapsedNs {
        return false;
      }
      var networkNs: U64 := elapsedNs - processingNs;
      var halfNetworkNs: I64 := (networkNs / 2) as I64;
      if hostSendNs > MAX_ROS_NS as I64 - halfNetworkNs {
        return false;
      }
      var hostNowNs: I64 := hostSendNs + halfNetworkNs;
      offsetNs := hostNowNs - (localReceiveUs * 1000) as I64;
      lastSyncUs := localReceiveUs;
      synced, pending := true, false;
      accepted := Exchange(1000 * requestUs as int, hostReceiveNs as int, hostSendNs as int,
                           1000 * localReceiveUs as int);
      ok := true;
    }

    /** The host's time: always inside the range of a message stamp and never at or after expiry. When
      * the host's clock is `c` ahead, it is right to within half the longest round trip, rounded up. */
    method Time(localUs: U64) returns (rosNs: Option<I64>)
      requires Valid()
      ensures rosNs.Some? <==>
              && synced && lastSyncUs <= localUs && localUs as int < lastSyncUs as int + timeoutUs as int
              && 1000 * localUs as int <= INT64_MAX
              && 0 <= 1000 * localUs as int + accepted.Estimate() <= MAX_ROS_NS
      ensures rosNs.Some? ==>
        && rosNs.value as int == 1000 * localUs as int + accepted.Estimate()
        && forall c :: accepted.Causal(c) ==>
             Magnitude(rosNs.value as int - (1000 * localUs as int + c)) <= HalfUp(maxRttNs as int)
    {
      if !synced || localUs < lastSyncUs || localUs - lastSyncUs >= timeoutUs
         || localUs > 9223372036854775807 / 1000 {
        return None;
      }
      var localNs: I64 := (localUs * 1000) as I64;
      if offsetNs > 0 && localNs > 9223372036854775807 - offsetNs {
        return None;
      }
      var estimate: I64 := localNs + offsetNs;
      if estimate < 0 || estimate as int > MAX_ROS_NS {
        return None;
      }
      forall c | accepted.Causal(c)
        ensures Magnitude(estimate as int - (1000 * localUs as int + c)) <= HalfUp(maxRttNs as int)
      {
        EstimateError(accepted, c);
      }
      rosNs := Some(estimate);
    }
  }
}
